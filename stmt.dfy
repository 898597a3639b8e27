// Statements and environments of the tree-walking pipeline (src/stmt.rs).
// The parser gives `class` declarations an optional superclass, so `Class`
// has that field.  Environments are shared, mutable scopes; here they live
// in a heap (a sequence) and refer to their enclosing scope by index.

module Stmts {
  import opened Wrappers
  import opened Token
  import opened Exprs

  datatype Stmt =
    | Block(statements: seq<Stmt>)
    | Class(name: Token, superclass: Option<Expr>, methods: seq<Stmt>)
    | Expression(expression: Expr)
    | Function(name: Token, params: seq<Token>, body: seq<Stmt>)
    | If(condition: Expr, thenBranch: Stmt, elseBranch: Option<Stmt>)
    | Print(expression: Expr)
    | Return(keyword: Token, value: Option<Expr>)
    | Var(name: Token, initializer: Option<Expr>)
    | While(condition: Expr, loopBody: Stmt)

  datatype Environment = Environment(values: map<string, BasicType>, enclosing: Option<nat>)

  /** An environment only ever encloses one created before it. */
  predicate EnvsWf(envs: seq<Environment>) {
    forall i :: 0 <= i < |envs| && envs[i].enclosing.Some? ==> envs[i].enclosing.value < i
  }

  /** `Environment::new`: the global scope. */
  function NewEnvironment(): (e: Environment)
    ensures e.values == map[] && e.enclosing.None?
  {
    Environment(map[], Option.None)
  }

  /** `Environment::from`: an empty scope inside `env`. */
  function From(env: nat): (e: Environment)
    ensures e.values == map[] && e.enclosing == Some(env)
  {
    Environment(map[], Some(env))
  }

  /** Adds a scope to the heap; its index is the old heap size. */
  function Alloc(envs: seq<Environment>, e: Environment): (r: (seq<Environment>, nat))
    requires EnvsWf(envs) && (e.enclosing.Some? ==> e.enclosing.value < |envs|)
    ensures |r.0| == |envs| + 1 && r.1 == |envs| && r.0[..|envs|] == envs && r.0[r.1] == e
    ensures EnvsWf(r.0)
  {
    (envs + [e], |envs|)
  }

  /** The binding `key` had, if any. */
  function Previous(m: map<string, BasicType>, key: string): Option<BasicType> {
    if key in m then Some(m[key]) else Option.None
  }

  /** `define`: binds `key` in scope `e` alone and returns the binding it replaced. */
  function Define(envs: seq<Environment>, e: nat, key: string, v: BasicType): (r: (seq<Environment>, Option<BasicType>))
    requires e < |envs|
    ensures |r.0| == |envs| && r.1 == Previous(envs[e].values, key)
    ensures r.0[e].values == envs[e].values[key := v] && r.0[e].enclosing == envs[e].enclosing
    ensures forall i :: 0 <= i < |envs| && i != e ==> r.0[i] == envs[i]
    ensures EnvsWf(envs) ==> EnvsWf(r.0)
  {
    (envs[e := envs[e].(values := envs[e].values[key := v])], Previous(envs[e].values, key))
  }

  /** `is_defined` looks at scope `e` alone. */
  predicate IsDefined(envs: seq<Environment>, e: nat, key: string)
    requires e < |envs|
  {
    key in envs[e].values
  }

  /**
   * The scope `depth` links up the chain from `e`.  A zero depth is `e`
   * itself; any other depth, negative ones included, steps to the enclosing
   * scope, and the walk fails at the global scope.
   */
  function Ancestor(envs: seq<Environment>, e: nat, depth: int): (r: Option<nat>)
    requires EnvsWf(envs) && e < |envs|
    ensures r.Some? ==> r.value <= e
    decreases e
  {
    if depth == 0 then Some(e)
    else match envs[e].enclosing
      case None => Option.None
      case Some(p) => Ancestor(envs, p, depth - 1)
  }

  /** `assign`: rebinds `key` in the scope `depth` links up, returning the binding replaced. */
  function Assign(envs: seq<Environment>, e: nat, key: string, v: BasicType, depth: int): (r: (seq<Environment>, Option<BasicType>))
    requires EnvsWf(envs) && e < |envs|
    ensures |r.0| == |envs| && EnvsWf(r.0)
    decreases e
  {
    if depth == 0 then Define(envs, e, key, v)
    else match envs[e].enclosing
      case None => (envs, Option.None)
      case Some(p) => Assign(envs, p, key, v, depth - 1)
  }

  /** `get`: the binding of `key` in the scope `depth` links up. */
  function Get(envs: seq<Environment>, e: nat, key: string, depth: int): Option<BasicType>
    requires EnvsWf(envs) && e < |envs|
    decreases e
  {
    if depth == 0 then Previous(envs[e].values, key)
    else match envs[e].enclosing
      case None => Option.None
      case Some(p) => Get(envs, p, key, depth - 1)
  }

  // ---------------------------------------------------------------------
  // Properties
  // ---------------------------------------------------------------------

  /** `is_defined` is `get` at depth 0: the enclosing scopes are never consulted. */
  lemma IsDefinedIsLocal(envs: seq<Environment>, e: nat, key: string)
    requires EnvsWf(envs) && e < |envs|
    ensures IsDefined(envs, e, key) <==> Get(envs, e, key, 0).Some?
    ensures envs[e].values == map[] ==> !IsDefined(envs, e, key)
  {
  }

  /** `get` reads the map of the scope `depth` links up, and nothing else. */
  lemma {:induction false} GetAtAncestor(envs: seq<Environment>, e: nat, key: string, depth: int)
    requires EnvsWf(envs) && e < |envs|
    ensures Get(envs, e, key, depth) ==
              match Ancestor(envs, e, depth)
              case None => Option.None
              case Some(a) => Previous(envs[a].values, key)
    decreases e
  {
    if depth != 0 && envs[e].enclosing.Some? {
      GetAtAncestor(envs, envs[e].enclosing.value, key, depth - 1);
    }
  }

  /** `assign` is `define` in the scope `depth` links up, and no change when there is none. */
  lemma {:induction false} AssignAtAncestor(envs: seq<Environment>, e: nat, key: string, v: BasicType, depth: int)
    requires EnvsWf(envs) && e < |envs|
    ensures Assign(envs, e, key, v, depth) ==
              match Ancestor(envs, e, depth)
              case None => (envs, Option.None)
              case Some(a) => Define(envs, a, key, v)
    decreases e
  {
    if depth != 0 && envs[e].enclosing.Some? {
      AssignAtAncestor(envs, envs[e].enclosing.value, key, v, depth - 1);
    }
  }

  /** Only scopes below `e` (and `e`) are reached from `e`, so a later scope does not affect the walk. */
  lemma {:induction false} AncestorIgnoresOthers(envs: seq<Environment>, envs': seq<Environment>, e: nat, depth: int)
    requires EnvsWf(envs) && EnvsWf(envs') && e < |envs| && e < |envs'|
    requires forall i :: 0 <= i <= e ==> envs[i].enclosing == envs'[i].enclosing
    ensures Ancestor(envs, e, depth) == Ancestor(envs', e, depth)
    decreases e
  {
    if depth != 0 && envs[e].enclosing.Some? {
      AncestorIgnoresOthers(envs, envs', envs[e].enclosing.value, depth - 1);
    }
  }

  /** Scopes added after `e` do not change what `get` reads from `e`. */
  lemma {:induction false} GetPrefix(envs: seq<Environment>, envs': seq<Environment>, e: nat, key: string, depth: int)
    requires EnvsWf(envs) && EnvsWf(envs') && e < |envs| <= |envs'| && envs'[..|envs|] == envs
    ensures Get(envs', e, key, depth) == Get(envs, e, key, depth)
    decreases e
  {
    assert envs'[e] == envs'[..|envs|][e];
    if depth != 0 && envs[e].enclosing.Some? {
      GetPrefix(envs, envs', envs[e].enclosing.value, key, depth - 1);
    }
  }

  /** After `assign` succeeds, `get` at the same depth reads the new value. */
  lemma AssignThenGet(envs: seq<Environment>, e: nat, key: string, v: BasicType, depth: int)
    requires EnvsWf(envs) && e < |envs| && Ancestor(envs, e, depth).Some?
    ensures Get(Assign(envs, e, key, v, depth).0, e, key, depth) == Some(v)
  {
    var a := Ancestor(envs, e, depth).value;
    AssignAtAncestor(envs, e, key, v, depth);
    var envs' := Assign(envs, e, key, v, depth).0;
    AncestorIgnoresOthers(envs, envs', e, depth);
    GetAtAncestor(envs', e, key, depth);
  }

  /** A fresh scope made by `from` holds nothing itself and sees its parent one level up. */
  lemma FromSeesParent(envs: seq<Environment>, parent: nat, key: string, depth: int)
    requires EnvsWf(envs) && parent < |envs| && depth >= 0
    ensures var (envs', e) := Alloc(envs, From(parent));
      Get(envs', e, key, 0).None? &&
      Get(envs', e, key, depth + 1) == Get(envs', parent, key, depth) &&
      Get(envs', parent, key, depth) == Get(envs, parent, key, depth)
  {
    var (envs', e) := Alloc(envs, From(parent));
    GetAtAncestor(envs', parent, key, depth);
    GetAtAncestor(envs, parent, key, depth);
    AncestorIgnoresOthers(envs, envs', parent, depth);
  }
}
