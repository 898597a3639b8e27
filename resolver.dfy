// The scope-depth resolver of the tree-walking pipeline (src/resolver.rs).
// `Resolution` states what one pass does to the resolver's state as
// functions over the syntax tree; `Resolver` is the pass as the source runs
// it, a set of procedures that update that state step by step, each proved
// to leave it where the matching function says.
//
// The state is the source's pair of mutable arguments: the scope stack (a
// linked list whose front is the innermost scope; here index 0) mapping each
// name to "defined yet", and the table from node id to the number of scopes
// between the use and its declaration.  The diagnostics the source writes to
// standard error are collected in `log`.

module Resolution {
  import opened Wrappers
  import T = Token
  import opened Exprs
  import opened Stmts

  type Scope = map<string, bool>

  datatype State = State(scopes: seq<Scope>, table: map<nat, nat>, log: seq<string>)

  const SelfInitializer := "Can't read local variable in its own initializer."
  const InvalidIdentifier := "Invalid identifier."

  /** One resolution step never forgets a resolved id or a diagnostic. */
  predicate Grows(st: State, r: State) {
    st.table.Keys <= r.table.Keys && |st.log| <= |r.log| && r.log[..|st.log|] == st.log
  }

  /** Only the innermost scope may change: the stack keeps its length and every outer scope. */
  predicate SameOuter(st: State, r: State) {
    |r.scopes| == |st.scopes| && (|st.scopes| > 0 ==> r.scopes[1..] == st.scopes[1..])
  }

  /** `begin_scope`: an empty scope becomes the innermost. */
  function BeginScope(st: State): (r: State)
    ensures |r.scopes| == |st.scopes| + 1 && r.scopes[0] == map[] && r.scopes[1..] == st.scopes
    ensures r.table == st.table && r.log == st.log
  {
    st.(scopes := [map[]] + st.scopes)
  }

  /** `end_scope`: the innermost scope is dropped; an empty stack stays empty. */
  function EndScope(st: State): (r: State)
    ensures |st.scopes| > 0 ==> r.scopes == st.scopes[1..]
    ensures |st.scopes| == 0 ==> r.scopes == []
    ensures r.table == st.table && r.log == st.log
  {
    if |st.scopes| > 0 then st.(scopes := st.scopes[1..]) else st
  }

  /** `declare` and `define`: `key` maps to `ready` in the innermost scope, if there is one. */
  function Mark(key: string, ready: bool, st: State): (r: State)
    ensures SameOuter(st, r) && r.table == st.table && r.log == st.log
    ensures |st.scopes| == 0 ==> r == st
    ensures |st.scopes| > 0 ==> r.scopes[0] == st.scopes[0][key := ready]
  {
    if |st.scopes| == 0 then st else st.(scopes := [st.scopes[0][key := ready]] + st.scopes[1..])
  }

  function Declare(key: string, st: State): State {
    Mark(key, false, st)
  }

  function Define(key: string, st: State): State {
    Mark(key, true, st)
  }

  /** The first scope at or after `from` that holds `key`. */
  function Innermost(scopes: seq<Scope>, key: string, from: nat): (r: Option<nat>)
    requires from <= |scopes|
    ensures r.Some? ==> from <= r.value < |scopes| && key in scopes[r.value]
    decreases |scopes| - from
  {
    if from == |scopes| then Option.None
    else if key in scopes[from] then Some(from)
    else Innermost(scopes, key, from + 1)
  }

  /** `resolve_local`: records the depth of the innermost scope holding `key`, if any. */
  function ResolveLocal(id: nat, key: string, st: State): (r: State)
    ensures r.scopes == st.scopes && r.log == st.log && Grows(st, r)
  {
    match Innermost(st.scopes, key, 0)
    case None => st
    case Some(d) => st.(table := st.table[id := d])
  }

  /** The read of a variable whose innermost binding is declared but not yet defined. */
  function CheckInitialized(key: string, st: State): (r: State)
    ensures r.scopes == st.scopes && r.table == st.table
    ensures r.log == st.log + (if |st.scopes| > 0 && key in st.scopes[0] && !st.scopes[0][key] then [SelfInitializer] else [])
  {
    if |st.scopes| > 0 && key in st.scopes[0] && !st.scopes[0][key] then st.(log := st.log + [SelfInitializer])
    else st
  }

  // ---------------------------------------------------------------------
  // Expressions
  // ---------------------------------------------------------------------

  /** `resolve_expr`: expressions resolve names but never change the scopes. */
  function ResolveExpr(e: Expr, st: State): (r: State)
    ensures r.scopes == st.scopes && Grows(st, r)
    decreases e, 1
  {
    match e
    case Binary(left, _, right) => ResolveExpr(right, ResolveExpr(left, st))
    case Call(callee, _, arguments) => ResolveExprs(arguments, ResolveExpr(callee, st))
    case Get(obj, _) => ResolveExpr(obj, st)
    case Grouping(inner) => ResolveExpr(inner, st)
    case Literal(_) => st
    case Logical(left, _, right) => ResolveExpr(right, ResolveExpr(left, st))
    case Set(obj, _, value) => ResolveExpr(obj, ResolveExpr(value, st))
    case Super(_, _, id) => ResolveLocal(id, "super", st)
    case This(_, id) => ResolveLocal(id, "this", st)
    case Unary(_, right) => ResolveExpr(right, st)
    case Variable(name, id) =>
      (match T.Name(name)
       case None => st
       case Some(key) => ResolveLocal(id, key, CheckInitialized(key, st)))
    case Assign(name, value, id) =>
      var s := ResolveExpr(value, st);
      (match T.Name(name)
       case None => s
       case Some(key) => ResolveLocal(id, key, s))
  }

  /** The argument loop of `resolve_expr` for calls, left to right. */
  function ResolveExprs(es: seq<Expr>, st: State): (r: State)
    ensures r.scopes == st.scopes && Grows(st, r)
    decreases es, 0
  {
    if es == [] then st else ResolveExprs(es[1..], ResolveExpr(es[0], st))
  }

  // ---------------------------------------------------------------------
  // Statements
  // ---------------------------------------------------------------------

  /** `declare` then `define` of the name of a token, when it names something. */
  function Bind(name: T.Token, st: State): (r: State)
    ensures SameOuter(st, r) && r.table == st.table && r.log == st.log
  {
    match T.Name(name)
    case None => st
    case Some(key) => Define(key, Declare(key, st))
  }

  /** The parameter loop of `resolve_function`. */
  function BindAll(params: seq<T.Token>, st: State): (r: State)
    ensures SameOuter(st, r) && r.table == st.table && r.log == st.log
  {
    if params == [] then st else BindAll(params[1..], Bind(params[0], st))
  }

  /** `resolve_stmt`: only the innermost scope may change, and nothing is forgotten. */
  function ResolveStmt(s: Stmt, st: State): (r: State)
    ensures SameOuter(st, r) && Grows(st, r)
    decreases s, 2
  {
    match s
    case Block(statements) => EndScope(ResolveStmts(statements, BeginScope(st)))
    case Class(name, superclass, methods) => ResolveClass(name, superclass, methods, st)
    case Expression(expression) => ResolveExpr(expression, st)
    case Function(name, params, body) =>
      if T.Name(name).None? then st else ResolveFunction(params, body, Bind(name, st))
    case If(condition, thenBranch, elseBranch) =>
      var s1 := ResolveStmt(thenBranch, ResolveExpr(condition, st));
      if elseBranch.Some? then ResolveStmt(elseBranch.value, s1) else s1
    case Print(expression) => ResolveExpr(expression, st)
    case Return(_, value) => if value.Some? then ResolveExpr(value.value, st) else st
    case Var(name, initializer) =>
      (match T.Name(name)
       case None => st.(log := st.log + [InvalidIdentifier])
       case Some(key) =>
         var s1 := Declare(key, st);
         var s2 := if initializer.Some? then ResolveExpr(initializer.value, s1) else s1;
         Define(key, s2))
    case While(condition, loopBody) => ResolveStmt(loopBody, ResolveExpr(condition, st))
  }

  /**
   * The `class` case: the name is bound, the superclass resolved, then the
   * methods see a `this` scope inside a `super` scope (the latter only when
   * there is a superclass).
   */
  function ResolveClass(name: T.Token, superclass: Option<Expr>, methods: seq<Stmt>, st: State): (r: State)
    ensures SameOuter(st, r) && Grows(st, r)
    decreases methods, 3
  {
    var s1 := Bind(name, st);
    var s2 := if superclass.Some? then Define("super", Declare("super", BeginScope(ResolveExpr(superclass.value, s1)))) else s1;
    var s3 := EndScope(ResolveMethods(methods, Define("this", Declare("this", BeginScope(s2)))));
    if superclass.Some? then EndScope(s3) else s3
  }

  /** The method loop of the `class` case; anything but a function is skipped. */
  function ResolveMethods(methods: seq<Stmt>, st: State): (r: State)
    ensures SameOuter(st, r) && Grows(st, r)
    decreases methods, 1
  {
    if methods == [] then st
    else
      var s := if methods[0].Function? then ResolveFunction(methods[0].params, methods[0].body, st) else st;
      ResolveMethods(methods[1..], s)
  }

  /** `resolve_function`: parameters and body share one fresh scope. */
  function ResolveFunction(params: seq<T.Token>, body: seq<Stmt>, st: State): (r: State)
    ensures r.scopes == st.scopes && Grows(st, r)
    decreases body, 1
  {
    EndScope(ResolveStmts(body, BindAll(params, BeginScope(st))))
  }

  /** The statement loop of `resolve` and of blocks and function bodies. */
  function ResolveStmts(ss: seq<Stmt>, st: State): (r: State)
    ensures SameOuter(st, r) && Grows(st, r)
    decreases ss, 0
  {
    if ss == [] then st else ResolveStmts(ss[1..], ResolveStmt(ss[0], st))
  }

  // ---------------------------------------------------------------------
  // Properties
  // ---------------------------------------------------------------------

  /** `resolve_local` finds the innermost scope holding the name: no scope before it holds it. */
  lemma {:induction false} InnermostFirst(scopes: seq<Scope>, key: string, from: nat)
    requires from <= |scopes|
    ensures Innermost(scopes, key, from).None? <==> forall j :: from <= j < |scopes| ==> key !in scopes[j]
    ensures Innermost(scopes, key, from).Some? ==> forall j :: from <= j < Innermost(scopes, key, from).value ==> key !in scopes[j]
    decreases |scopes| - from
  {
    if from < |scopes| && key !in scopes[from] {
      InnermostFirst(scopes, key, from + 1);
    }
  }

  /** The depth `resolve_local` records, and that it records nothing when no scope holds the name. */
  lemma ResolveLocalDepth(id: nat, key: string, st: State, d: nat)
    ensures (forall j :: 0 <= j < |st.scopes| ==> key !in st.scopes[j]) ==> ResolveLocal(id, key, st).table == st.table
    ensures d < |st.scopes| && key in st.scopes[d] && (forall j :: 0 <= j < d ==> key !in st.scopes[j]) ==>
              ResolveLocal(id, key, st).table == st.table[id := d]
  {
    InnermostFirst(st.scopes, key, 0);
    var r := Innermost(st.scopes, key, 0);
    if r.Some? && r.value != d && d < |st.scopes| && key in st.scopes[d] {
      assert r.value < d;
    }
  }

  /** With no local scope, a name is global: `declare`/`define` do nothing and no use is resolved. */
  lemma {:induction false} GlobalScope(e: Expr, key: string, st: State)
    requires st.scopes == []
    ensures Declare(key, st) == st && Define(key, st) == st
    ensures ResolveExpr(e, st).table == st.table
    decreases e, 1
  {
    match e
    case Binary(left, _, right) =>
      GlobalScope(left, key, st);
      GlobalScope(right, key, ResolveExpr(left, st));
    case Call(callee, _, arguments) =>
      GlobalScope(callee, key, st);
      GlobalScopeAll(arguments, ResolveExpr(callee, st));
    case Get(obj, _) => GlobalScope(obj, key, st);
    case Grouping(inner) => GlobalScope(inner, key, st);
    case Literal(_) =>
    case Logical(left, _, right) =>
      GlobalScope(left, key, st);
      GlobalScope(right, key, ResolveExpr(left, st));
    case Set(obj, _, value) =>
      GlobalScope(value, key, st);
      GlobalScope(obj, key, ResolveExpr(value, st));
    case Super(_, _, _) =>
    case This(_, _) =>
    case Unary(_, right) => GlobalScope(right, key, st);
    case Variable(_, _) =>
    case Assign(_, value, _) => GlobalScope(value, key, st);
  }

  lemma {:induction false} GlobalScopeAll(es: seq<Expr>, st: State)
    requires st.scopes == []
    ensures ResolveExprs(es, st).table == st.table
    decreases es, 0
  {
    if es != [] {
      GlobalScope(es[0], "", st);
      GlobalScopeAll(es[1..], ResolveExpr(es[0], st));
    }
  }

  /**
   * A block, a function and a class push and pop their scopes in pairs: the
   * stack comes back as it was, except that a function or class name is
   * bound in the innermost scope.
   */
  lemma ScopesRestored(s: Stmt, st: State)
    requires s.Block? || s.Class? || s.Function?
    ensures s.Block? ==> ResolveStmt(s, st).scopes == st.scopes
    ensures !s.Block? ==> ResolveStmt(s, st).scopes == Bind(s.name, st).scopes
  {
    if s.Block? {
      var inner := ResolveStmts(s.statements, BeginScope(st));
      assert inner.scopes[1..] == st.scopes;
    } else if s.Class? {
      var st1 := Bind(s.name, st);
      var s2 := if s.superclass.Some? then Define("super", Declare("super", BeginScope(ResolveExpr(s.superclass.value, st1)))) else st1;
      var inner := ResolveMethods(s.methods, Define("this", Declare("this", BeginScope(s2))));
      assert inner.scopes[1..] == s2.scopes;
      if s.superclass.Some? {
        assert s2.scopes[1..] == st1.scopes;
      }
    }
  }

  /**
   * `var` declares its name before resolving the initializer and defines it
   * after: in a local scope, `var a = a;` reports the read of `a`, and `a`
   * ends up defined.
   */
  lemma VarSeesItselfDeclared(name: T.Token, id: nat, st: State)
    requires |st.scopes| > 0 && T.Name(name).Some?
    ensures var r := ResolveStmt(Var(name, Some(Variable(name, id))), st);
      r.log == st.log + [SelfInitializer] && r.table == st.table[id := 0] &&
      r.scopes[0] == st.scopes[0][T.Name(name).value := true]
  {
  }
}

module Resolver {
  import opened Wrappers
  import T = Token
  import opened Exprs
  import opened Stmts
  import R = Resolution

  /** `resolve_local`: the scan from the innermost scope outwards. */
  method ResolveLocal(id: nat, key: string, st: R.State) returns (r: R.State)
    ensures r == R.ResolveLocal(id, key, st)
  {
    var i := 0;
    while i < |st.scopes|
      invariant i <= |st.scopes|
      invariant R.Innermost(st.scopes, key, 0) == R.Innermost(st.scopes, key, i)
    {
      if key in st.scopes[i] {
        return st.(table := st.table[id := i]);
      }
      i := i + 1;
    }
    r := st;
  }

  /** `resolve_expr`. */
  method ResolveExpr(e: Expr, st: R.State) returns (r: R.State)
    ensures r == R.ResolveExpr(e, st)
    decreases e, 1
  {
    match e
    case Binary(left, _, right) =>
      r := ResolveExpr(left, st);
      r := ResolveExpr(right, r);
    case Call(callee, _, arguments) =>
      r := ResolveExpr(callee, st);
      var i := 0;
      while i < |arguments|
        invariant i <= |arguments|
        invariant R.ResolveExpr(e, st) == R.ResolveExprs(arguments[i..], r)
      {
        assert arguments[i..][1..] == arguments[i + 1..];
        r := ResolveExpr(arguments[i], r);
        i := i + 1;
      }
    case Get(obj, _) => r := ResolveExpr(obj, st);
    case Grouping(inner) => r := ResolveExpr(inner, st);
    case Literal(_) => r := st;
    case Logical(left, _, right) =>
      r := ResolveExpr(left, st);
      r := ResolveExpr(right, r);
    case Set(obj, _, value) =>
      r := ResolveExpr(value, st);
      r := ResolveExpr(obj, r);
    case Super(_, _, id) => r := ResolveLocal(id, "super", st);
    case This(_, id) => r := ResolveLocal(id, "this", st);
    case Unary(_, right) => r := ResolveExpr(right, st);
    case Variable(name, id) =>
      r := st;
      var key := T.Name(name);
      if key.Some? {
        if |r.scopes| > 0 && key.value in r.scopes[0] && !r.scopes[0][key.value] {
          r := r.(log := r.log + [R.SelfInitializer]);
        }
        r := ResolveLocal(id, key.value, r);
      }
    case Assign(name, value, id) =>
      r := ResolveExpr(value, st);
      var key := T.Name(name);
      if key.Some? {
        r := ResolveLocal(id, key.value, r);
      }
  }

  /** `resolve_stmt`. */
  method ResolveStmt(s: Stmt, st: R.State) returns (r: R.State)
    ensures r == R.ResolveStmt(s, st)
    decreases s, 2
  {
    match s
    case Block(statements) =>
      r := ResolveStmts(statements, R.BeginScope(st));
      r := R.EndScope(r);
    case Class(name, superclass, methods) =>
      r := ResolveClass(name, superclass, methods, st);
    case Expression(expression) => r := ResolveExpr(expression, st);
    case Function(name, params, body) =>
      r := st;
      if T.Name(name).Some? {
        r := R.Bind(name, r);
        r := ResolveFunction(params, body, r);
      }
    case If(condition, thenBranch, elseBranch) =>
      r := ResolveExpr(condition, st);
      r := ResolveStmt(thenBranch, r);
      if elseBranch.Some? {
        r := ResolveStmt(elseBranch.value, r);
      }
    case Print(expression) => r := ResolveExpr(expression, st);
    case Return(_, value) =>
      r := st;
      if value.Some? {
        r := ResolveExpr(value.value, r);
      }
    case Var(name, initializer) =>
      var key := T.Name(name);
      if key.Some? {
        r := R.Declare(key.value, st);
        if initializer.Some? {
          r := ResolveExpr(initializer.value, r);
        }
        r := R.Define(key.value, r);
      } else {
        r := st.(log := st.log + [R.InvalidIdentifier]);
      }
    case While(condition, loopBody) =>
      r := ResolveExpr(condition, st);
      r := ResolveStmt(loopBody, r);
  }

  /** The `class` case of `resolve_stmt`. */
  method ResolveClass(name: T.Token, superclass: Option<Expr>, methods: seq<Stmt>, st: R.State) returns (r: R.State)
    ensures r == R.ResolveClass(name, superclass, methods, st)
    decreases methods, 3
  {
    r := R.Bind(name, st);
    var hasSuperclass := false;
    if superclass.Some? {
      r := ResolveExpr(superclass.value, r);
      hasSuperclass := true;
    }
    if hasSuperclass {
      r := R.Define("super", R.Declare("super", R.BeginScope(r)));
    }
    r := R.Define("this", R.Declare("this", R.BeginScope(r)));
    var i := 0;
    while i < |methods|
      invariant i <= |methods|
      invariant R.ResolveClass(name, superclass, methods, st) ==
                (var s3 := R.EndScope(R.ResolveMethods(methods[i..], r)); if hasSuperclass then R.EndScope(s3) else s3)
    {
      assert methods[i..][1..] == methods[i + 1..];
      if methods[i].Function? {
        r := ResolveFunction(methods[i].params, methods[i].body, r);
      }
      i := i + 1;
    }
    r := R.EndScope(r);
    if hasSuperclass {
      r := R.EndScope(r);
    }
  }

  /** `resolve_function`. */
  method ResolveFunction(params: seq<T.Token>, body: seq<Stmt>, st: R.State) returns (r: R.State)
    ensures r == R.ResolveFunction(params, body, st)
    decreases body, 1
  {
    r := R.BeginScope(st);
    var i := 0;
    while i < |params|
      invariant i <= |params|
      invariant R.BindAll(params, R.BeginScope(st)) == R.BindAll(params[i..], r)
    {
      assert params[i..][1..] == params[i + 1..];
      r := R.Bind(params[i], r);
      i := i + 1;
    }
    r := ResolveStmts(body, r);
    r := R.EndScope(r);
  }

  /** `resolve` and the statement loops of blocks and function bodies. */
  method ResolveStmts(ss: seq<Stmt>, st: R.State) returns (r: R.State)
    ensures r == R.ResolveStmts(ss, st)
    decreases ss, 0
  {
    r := st;
    var i := 0;
    while i < |ss|
      invariant i <= |ss|
      invariant R.ResolveStmts(ss, st) == R.ResolveStmts(ss[i..], r)
    {
      assert ss[i..][1..] == ss[i + 1..];
      r := ResolveStmt(ss[i], r);
      i := i + 1;
    }
  }
}
