// The tree-walking evaluator (src/interpreter.rs) together with
// `LoxFunction::call` (src/callable.rs).  Evaluation and execution are
// functions of a fuel bound, the program, the current environment, the heap
// and the resolver's table from node id to scope depth; they give the value
// and the new heap, a failure (the source's `None` / `Err`), or `Exhausted`
// when the fuel runs out first.  Each step spends one unit of fuel.

module Interpreter {
  import opened Wrappers
  import opened Token
  import E = Exprs
  import S = Stmts
  import C = Callable

  type Table = map<nat, nat>

  datatype Run<T> = Done(value: T, heap: C.Heap) | Fail(reason: string) | Exhausted

  const RuntimeError := "Runtime Error"
  const WrongArguments := "Wrong argument number."
  const NotIdentifier := "Not a correct identifier"
  const InvalidReturn := "Invalid return expression."
  const InvalidVariable := "Invalid Variable Name"
  const FunctionFailed := "Error in function"

  /** The heap may only grow: environments and instances are never removed. */
  predicate Grown(h: C.Heap, h': C.Heap) {
    S.EnvsWf(h'.envs) && |h.envs| <= |h'.envs| && |h.instances| <= |h'.instances|
  }

  /** A failure or exhaustion carried over to a result of another type. */
  function Propagate<T, U>(r: Run<T>): (p: Run<U>)
    requires !r.Done?
    ensures p.Fail? <==> r.Fail?
    ensures p.Fail? ==> p.reason == r.reason
  {
    if r.Fail? then Fail(r.reason) else Exhausted
  }

  // ---------------------------------------------------------------------
  // Operators
  // ---------------------------------------------------------------------

  /** `divide`: no result for a zero denominator. */
  function Divide(numerator: real, denominator: real): (r: Option<real>)
    ensures r.None? <==> denominator == 0.0
    ensures r.Some? ==> r.value * denominator == numerator
  {
    if denominator == 0.0 then Option.None else Some(numerator / denominator)
  }

  /** `is_equal`: two numbers, two booleans or two strings are compared; other pairs have no answer. */
  function IsEqual(a: BasicType, b: BasicType): (r: Option<bool>)
    ensures r.Some? <==> (a.Number? && b.Number?) || (a.Bool? && b.Bool?) || (a.String? && b.String?)
    ensures r.Some? ==> (r.value <==> a == b)
  {
    match (a, b)
    case (Number(x), Number(y)) => Some(x == y)
    case (Bool(x), Bool(y)) => Some(x == y)
    case (String(x), String(y)) => Some(x == y)
    case _ => Option.None
  }

  const Arithmetic: set<TokenType> := {Minus, Star, Slash}
  const Comparison: set<TokenType> := {Greater, GreaterEqual, Less, LessEqual}

  /** The operator step of `binary_eval`, once both operands have values. */
  function BinaryOp(op: TokenType, l: BasicType, r: BasicType): (v: Option<BasicType>)
    ensures op in Arithmetic + Comparison ==> (v.Some? <==> l.Number? && r.Number? && (op == Slash ==> r.num != 0.0))
    ensures op in Arithmetic && v.Some? ==> v.value.Number?
    ensures op in Comparison && v.Some? ==> v.value.Bool?
    ensures op == Plus ==> (v.Some? <==> (l.Number? && r.Number?) || (l.String? && r.String?))
    ensures op == Plus && v.Some? && l.String? ==> v.value == BasicType.String(l.str + r.str)
    ensures op == Plus && v.Some? && l.Number? ==> v.value == BasicType.Number(l.num + r.num)
    ensures op == EqualEqual ==> (v.Some? <==> IsEqual(l, r).Some?) && (v.Some? ==> v.value == Bool(l == r))
    ensures op == BangEqual ==> (v.Some? <==> IsEqual(l, r).Some?) && (v.Some? ==> v.value == Bool(l != r))
    ensures op !in Arithmetic + Comparison + {Plus, EqualEqual, BangEqual} ==> v.None?
  {
    match op
    case Minus => if l.Number? && r.Number? then Some(BasicType.Number(l.num - r.num)) else Option.None
    case Slash =>
      if l.Number? && r.Number? then
        (match Divide(l.num, r.num)
         case None => Option.None
         case Some(q) => Some(BasicType.Number(q)))
      else Option.None
    case Star => if l.Number? && r.Number? then Some(BasicType.Number(l.num * r.num)) else Option.None
    case Plus =>
      if l.Number? && r.Number? then Some(BasicType.Number(l.num + r.num))
      else if l.String? && r.String? then Some(BasicType.String(l.str + r.str))
      else Option.None
    case Greater => if l.Number? && r.Number? then Some(Bool(l.num > r.num)) else Option.None
    case GreaterEqual => if l.Number? && r.Number? then Some(Bool(l.num >= r.num)) else Option.None
    case Less => if l.Number? && r.Number? then Some(Bool(l.num < r.num)) else Option.None
    case LessEqual => if l.Number? && r.Number? then Some(Bool(l.num <= r.num)) else Option.None
    case BangEqual =>
      (match IsEqual(l, r)
       case None => Option.None
       case Some(x) => Some(Bool(!x)))
    case EqualEqual =>
      (match IsEqual(l, r)
       case None => Option.None
       case Some(x) => Some(Bool(x)))
    case _ => Option.None
  }

  /** The operator step of `unitary_eval`: `-` negates a number, `!` a boolean, and `!nil` is true. */
  function UnaryOp(op: TokenType, v: BasicType): (r: Option<BasicType>)
    ensures op == Minus ==> (r.Some? <==> v.Number?) && (r.Some? ==> r.value == BasicType.Number(-v.num))
    ensures op == Bang ==> (r.Some? <==> v.Bool? || v.None?) && (r.Some? ==> r.value == Bool(v.None? || !v.truth))
    ensures op != Minus && op != Bang ==> r.None?
  {
    match op
    case Minus => if v.Number? then Some(BasicType.Number(-v.num)) else Option.None
    case Bang =>
      if v.Bool? then Some(Bool(!v.truth))
      else if v.None? then Some(Bool(true))
      else Option.None
    case _ => Option.None
  }

  // ---------------------------------------------------------------------
  // Evaluation
  // ---------------------------------------------------------------------

  /** `evaluate` together with `binary_eval` and `unitary_eval`. */
  function Eval(fuel: nat, e: E.Expr, env: nat, h: C.Heap, table: Table): (r: Run<BasicType>)
    requires S.EnvsWf(h.envs) && env < |h.envs|
    ensures r.Done? ==> Grown(h, r.heap)
    decreases fuel, 0
  {
    if fuel == 0 then Exhausted
    else match e
    case Binary(left, operator, right) =>
      var a := Eval(fuel - 1, left, env, h, table);
      if !a.Done? then a
      else
        var b := Eval(fuel - 1, right, env, a.heap, table);
        if !b.Done? then b
        else
          (match BinaryOp(operator.ttype, a.value, b.value)
           case None => Fail(RuntimeError)
           case Some(v) => Done(v, b.heap))
    case Call(callee, _, arguments) =>
      var c := Eval(fuel - 1, callee, env, h, table);
      if !c.Done? then c
      else
        var a := EvalArgs(fuel - 1, arguments, [], env, c.heap, table);
        if !a.Done? then Propagate(a)
        else CallValue(fuel - 1, c.value, a.value, a.heap, table)
    case Get(obj, name) =>
      var o := Eval(fuel - 1, obj, env, h, table);
      if !o.Done? then o
      else if !o.value.Instance? || o.value.instance >= |o.heap.instances| || Name(name).None? then Fail(RuntimeError)
      else Property(o.heap, o.value.instance, Name(name).value)
    case Grouping(inner) => Eval(fuel - 1, inner, env, h, table)
    case Literal(v) => Done(v, h)
    case Logical(left, operator, right) =>
      var a := Eval(fuel - 1, left, env, h, table);
      if !a.Done? then a
      else if !a.value.Bool? then Fail(RuntimeError)
      else if operator.ttype == Or && a.value.truth then Done(Bool(true), a.heap)
      else if operator.ttype != Or && !a.value.truth then Done(Bool(false), a.heap)
      else Eval(fuel - 1, right, env, a.heap, table)
    case Set(obj, name, value) =>
      var o := Eval(fuel - 1, obj, env, h, table);
      if !o.Done? then o
      else if !o.value.Instance? || o.value.instance >= |o.heap.instances| then Fail(RuntimeError)
      else
        var v := Eval(fuel - 1, value, env, o.heap, table);
        if !v.Done? then v
        else if Name(name).None? then Fail(RuntimeError)
        else
          var i := o.value.instance;
          var (inst, _) := C.InstanceSet(v.heap.instances[i], Name(name).value, v.value);
          Done(v.value, v.heap.(instances := v.heap.instances[i := inst]))
    case Super(_, methodName, id) => SuperMethod(methodName, id, env, h, table)
    case This(_, id) =>
      if id !in table then Fail(RuntimeError)
      else
        (match S.Get(h.envs, env, "this", table[id])
         case None => Fail(RuntimeError)
         case Some(v) => Done(v, h))
    case Unary(operator, right) =>
      var a := Eval(fuel - 1, right, env, h, table);
      if !a.Done? then a
      else
        (match UnaryOp(operator.ttype, a.value)
         case None => Fail(RuntimeError)
         case Some(v) => Done(v, a.heap))
    case Variable(name, id) =>
      if Name(name).None? || id !in table then Fail(RuntimeError)
      else
        (match S.Get(h.envs, env, Name(name).value, table[id])
         case None => Fail(RuntimeError)
         case Some(v) => Done(v, h))
    case Assign(name, value, id) =>
      if Name(name).None? || id !in table then Fail(RuntimeError)
      else
        var v := Eval(fuel - 1, value, env, h, table);
        if !v.Done? then v
        else
          var (envs, previous) := S.Assign(v.heap.envs, env, Name(name).value, v.value, table[id]);
          (match previous
           case None => Fail(RuntimeError)
           case Some(p) => Done(p, v.heap.(envs := envs)))
  }

  /** The argument loop of a call: left to right, stopping at the first failure. */
  function EvalArgs(fuel: nat, es: seq<E.Expr>, acc: seq<BasicType>, env: nat, h: C.Heap, table: Table): (r: Run<seq<BasicType>>)
    requires S.EnvsWf(h.envs) && env < |h.envs|
    ensures r.Done? ==> Grown(h, r.heap) && |r.value| == |acc| + |es| && r.value[..|acc|] == acc
    decreases fuel, 0
  {
    if fuel == 0 then Exhausted
    else if es == [] then Done(acc, h)
    else
      var a := Eval(fuel - 1, es[0], env, h, table);
      if !a.Done? then Propagate(a)
      else EvalArgs(fuel - 1, es[1..], acc + [a.value], env, a.heap, table)
  }

  /** Property access on an instance: its own field first, then a method of its class chain, bound to it. */
  function Property(h: C.Heap, instance: nat, key: string): (r: Run<BasicType>)
    requires S.EnvsWf(h.envs) && instance < |h.instances|
    ensures r.Done? ==> Grown(h, r.heap)
    ensures key in h.instances[instance].fields ==> r == Done(h.instances[instance].fields[key], h)
  {
    if key in h.instances[instance].fields then Done(h.instances[instance].fields[key], h)
    else BindMethod(h, C.LookupMethod(h.instances[instance].klass, key), instance)
  }

  /** A method found by lookup, bound to the instance; no method is a failure. */
  function BindMethod(h: C.Heap, m: Option<C.LoxFunction>, instance: nat): (r: Run<BasicType>)
    requires S.EnvsWf(h.envs)
    ensures r.Done? ==> Grown(h, r.heap)
    ensures r.Done? <==> m.Some? && m.value.closure < |h.envs|
    ensures r.Done? ==> r.value == Function(|h.functions|) && r.heap.functions == h.functions + [m.value.(closure := |h.envs|)]
  {
    if m.None? || m.value.closure >= |h.envs| then Fail(RuntimeError)
    else
      var (h', f) := C.Bind(h, m.value, instance);
      Done(Function(f), h')
  }

  /** `super.method`: the method is looked up from the superclass bound `depth` scopes out, and bound to `this` one scope nearer. */
  function SuperMethod(methodName: Token, id: nat, env: nat, h: C.Heap, table: Table): (r: Run<BasicType>)
    requires S.EnvsWf(h.envs) && env < |h.envs|
    ensures r.Done? ==> Grown(h, r.heap)
  {
    if id !in table then Fail(RuntimeError)
    else
      var depth := table[id];
      var sv := S.Get(h.envs, env, "super", depth);
      var tv := S.Get(h.envs, env, "this", depth as int - 1);
      if sv.None? || !sv.value.Class? || sv.value.klass >= |h.classes| then Fail(RuntimeError)
      else if tv.None? || !tv.value.Instance? || Name(methodName).None? then Fail(RuntimeError)
      else BindMethod(h, C.LookupMethod(h.classes[sv.value.klass], Name(methodName).value), tv.value.instance)
  }

  /** The callee dispatch of `evaluate`: a function is called, a class makes an instance, anything else fails. */
  function CallValue(fuel: nat, callee: BasicType, args: seq<BasicType>, h: C.Heap, table: Table): (r: Run<BasicType>)
    requires S.EnvsWf(h.envs)
    ensures r.Done? ==> Grown(h, r.heap)
    decreases fuel, 2
  {
    match callee
    case Function(i) => if i < |h.functions| then CallFunction(fuel, h.functions[i], args, h, table) else Fail(RuntimeError)
    case Class(k) =>
      if k < |h.classes| then
        var (h', v) := C.ClassCall(h, h.classes[k]);
        Done(v, h')
      else Fail(RuntimeError)
    case _ => Fail(RuntimeError)
  }

  /** The parameter loop of `LoxFunction::call`: each parameter is defined to its argument, in order. */
  function BindParams(params: seq<Token>, args: seq<BasicType>, envs: seq<S.Environment>, e: nat): (r: Option<seq<S.Environment>>)
    requires |params| == |args| && e < |envs|
    ensures r.Some? ==> |r.value| == |envs| && (S.EnvsWf(envs) ==> S.EnvsWf(r.value))
    ensures r.Some? ==> forall i :: 0 <= i < |envs| && i != e ==> r.value[i] == envs[i]
    ensures r.Some? ==> r.value[e].enclosing == envs[e].enclosing
    ensures r.None? <==> exists i :: 0 <= i < |params| && Name(params[i]).None?
  {
    if params == [] then Some(envs)
    else if Name(params[0]).None? then Option.None
    else
      var r := BindParams(params[1..], args[1..], S.Define(envs, e, Name(params[0]).value, args[0]).0, e);
      assert forall i :: 1 <= i < |params| ==> params[1..][i - 1] == params[i];
      r
  }

  /** `LoxFunction::call`: the arity is checked before anything is bound; then a fresh scope inside the closure runs the body. */
  function CallFunction(fuel: nat, f: C.LoxFunction, args: seq<BasicType>, h: C.Heap, table: Table): (r: Run<BasicType>)
    requires S.EnvsWf(h.envs)
    ensures r.Done? ==> Grown(h, r.heap)
    ensures |args| != C.FunctionArity(f) ==> r == Fail(WrongArguments)
    decreases fuel, 1
  {
    if |f.params| != |args| then Fail(WrongArguments)
    else if f.closure >= |h.envs| then Fail(RuntimeError)
    else
      var (envs, e) := S.Alloc(h.envs, S.From(f.closure));
      match BindParams(f.params, args, envs, e)
      case None => Fail(RuntimeError)
      case Some(envs') => ExecBody(fuel, f.body, e, h.(envs := envs'), table)
  }

  /** The body loop of `call`: a top-level `return` ends it with its value (true when it has none), as does the end. */
  function ExecBody(fuel: nat, body: seq<S.Stmt>, env: nat, h: C.Heap, table: Table): (r: Run<BasicType>)
    requires S.EnvsWf(h.envs) && env < |h.envs|
    ensures r.Done? ==> Grown(h, r.heap)
    decreases fuel, 0
  {
    if fuel == 0 then Exhausted
    else if body == [] then Done(Bool(true), h)
    else if body[0].Return? then
      (if body[0].value.None? then Done(Bool(true), h) else Eval(fuel - 1, body[0].value.value, env, h, table))
    else
      var x := Exec(fuel - 1, body[0], env, h, table);
      if x.Fail? then Fail(FunctionFailed)
      else if x.Exhausted? then Exhausted
      else ExecBody(fuel - 1, body[1..], env, x.heap, table)
  }

  // ---------------------------------------------------------------------
  // Execution
  // ---------------------------------------------------------------------

  /** The value of a condition, or the failure a missing or non-boolean one causes. */
  function Condition(fuel: nat, c: E.Expr, env: nat, h: C.Heap, table: Table): (r: Run<bool>)
    requires S.EnvsWf(h.envs) && env < |h.envs|
    ensures r.Done? ==> Grown(h, r.heap)
    ensures r.Fail? ==> r.reason == RuntimeError
    ensures var v := Eval(fuel, c, env, h, table);
      (r.Done? <==> v.Done? && v.value.Bool?) && (r.Done? ==> r.value == v.value.truth && r.heap == v.heap) &&
      (r.Exhausted? <==> v.Exhausted?)
    decreases fuel, 1
  {
    var v := Eval(fuel, c, env, h, table);
    if v.Exhausted? then Exhausted
    else if v.Fail? || !v.value.Bool? then Fail(RuntimeError)
    else Done(v.value.truth, v.heap)
  }

  /** An expression evaluated for its effect (`expression` and `print` statements). */
  function Effect(fuel: nat, x: E.Expr, env: nat, h: C.Heap, table: Table): (r: Run<()>)
    requires S.EnvsWf(h.envs) && env < |h.envs|
    ensures r.Done? ==> Grown(h, r.heap)
    ensures r.Fail? ==> r.reason == RuntimeError
    decreases fuel, 1
  {
    var v := Eval(fuel, x, env, h, table);
    if v.Done? then Done((), v.heap) else if v.Fail? then Fail(RuntimeError) else Exhausted
  }

  /** `execute`. */
  function Exec(fuel: nat, s: S.Stmt, env: nat, h: C.Heap, table: Table): (r: Run<()>)
    requires S.EnvsWf(h.envs) && env < |h.envs|
    ensures r.Done? ==> Grown(h, r.heap)
    decreases fuel, 0
  {
    if fuel == 0 then Exhausted
    else match s
    case Block(statements) =>
      var (envs, e) := S.Alloc(h.envs, S.From(env));
      Interpret(fuel - 1, statements, e, h.(envs := envs), table)
    case Class(name, superclass, methods) => ExecClass(fuel - 1, name, superclass, methods, env, h, table)
    case Expression(expression) => Effect(fuel - 1, expression, env, h, table)
    case Function(name, params, body) =>
      if Name(name).None? then Fail(NotIdentifier)
      else
        var f := C.LoxFunction(name, params, body, env);
        var (envs, _) := S.Define(h.envs, env, Name(name).value, Function(|h.functions|));
        Done((), h.(envs := envs, functions := h.functions + [f]))
    case If(condition, thenBranch, elseBranch) =>
      var c := Condition(fuel - 1, condition, env, h, table);
      if !c.Done? then Propagate(c)
      else if c.value then Exec(fuel - 1, thenBranch, env, c.heap, table)
      else if elseBranch.Some? then Exec(fuel - 1, elseBranch.value, env, c.heap, table)
      else Done((), c.heap)
    case Print(expression) => Effect(fuel - 1, expression, env, h, table)
    case Return(_, _) => Fail(InvalidReturn)
    case Var(name, initializer) =>
      if Name(name).None? then Fail(InvalidVariable)
      else if S.IsDefined(h.envs, env, Name(name).value) then Fail(RuntimeError)
      else if initializer.None? then Done((), h.(envs := S.Define(h.envs, env, Name(name).value, BasicType.None).0))
      else
        var v := Eval(fuel - 1, initializer.value, env, h, table);
        if v.Exhausted? then Exhausted
        else if v.Fail? then Fail(RuntimeError)
        else Done((), v.heap.(envs := S.Define(v.heap.envs, env, Name(name).value, v.value).0))
    case While(condition, loopBody) =>
      var c := Condition(fuel - 1, condition, env, h, table);
      if !c.Done? then Propagate(c)
      else ExecWhile(fuel - 1, c.value, condition, loopBody, env, c.heap, table)
  }

  /** The `while is_true` loop: run the body, then evaluate the condition again. */
  function ExecWhile(fuel: nat, isTrue: bool, condition: E.Expr, body: S.Stmt, env: nat, h: C.Heap, table: Table): (r: Run<()>)
    requires S.EnvsWf(h.envs) && env < |h.envs|
    ensures r.Done? ==> Grown(h, r.heap)
    decreases fuel, 0
  {
    if fuel == 0 then Exhausted
    else if !isTrue then Done((), h)
    else
      var c := Iterate(fuel - 1, condition, body, env, h, table);
      if !c.Done? then Propagate(c)
      else ExecWhile(fuel - 1, c.value, condition, body, env, c.heap, table)
  }

  /** One turn of the `while is_true` loop: the body, then the condition again; a failing body ends the turn. */
  function Iterate(fuel: nat, condition: E.Expr, body: S.Stmt, env: nat, h: C.Heap, table: Table): (r: Run<bool>)
    requires S.EnvsWf(h.envs) && env < |h.envs|
    ensures r.Done? ==> Grown(h, r.heap)
    decreases fuel, 2
  {
    var x := Exec(fuel, body, env, h, table);
    if !x.Done? then Propagate(x)
    else Condition(fuel, condition, env, x.heap, table)
  }

  /** `interpret`: statements in order, stopping at the first failure. */
  function Interpret(fuel: nat, ss: seq<S.Stmt>, env: nat, h: C.Heap, table: Table): (r: Run<()>)
    requires S.EnvsWf(h.envs) && env < |h.envs|
    ensures r.Done? ==> Grown(h, r.heap)
    decreases fuel, 0
  {
    if fuel == 0 then Exhausted
    else if ss == [] then Done((), h)
    else
      var x := Exec(fuel - 1, ss[0], env, h, table);
      if !x.Done? then x
      else Interpret(fuel - 1, ss[1..], env, x.heap, table)
  }

  /** The method loop of the `class` case: every function becomes a method closed over `closure`. */
  function ClassMethods(methods: seq<S.Stmt>, closure: nat, acc: map<string, C.LoxFunction>): (r: Option<map<string, C.LoxFunction>>)
    ensures r.Some? ==> acc.Keys <= r.value.Keys
    ensures r.Some? ==> forall k :: k in r.value ==> (k in acc && r.value[k] == acc[k]) || r.value[k].closure == closure
  {
    if methods == [] then Some(acc)
    else if !methods[0].Function? then ClassMethods(methods[1..], closure, acc)
    else if Name(methods[0].name).None? then Option.None
    else
      var m := methods[0];
      ClassMethods(methods[1..], closure, acc[Name(m.name).value := C.LoxFunction(m.name, m.params, m.body, closure)])
  }

  /**
   * The `class` case: with a superclass, which must evaluate to a class, a
   * scope binding `super` is made; the methods close over a further scope,
   * and the class is bound to its name in the current environment.
   */
  function ExecClass(fuel: nat, name: Token, superclass: Option<E.Expr>, methods: seq<S.Stmt>, env: nat, h: C.Heap, table: Table): (r: Run<()>)
    requires S.EnvsWf(h.envs) && env < |h.envs|
    ensures r.Done? ==> Grown(h, r.heap)
    decreases fuel, 1
  {
    if superclass.None? then DefineClass(name, Option.None, methods, env, env, h)
    else
      var v := Eval(fuel, superclass.value, env, h, table);
      if v.Exhausted? then Exhausted
      else if v.Fail? || !v.value.Class? || v.value.klass >= |v.heap.classes| then Fail(RuntimeError)
      else
        var (envs, local) := S.Alloc(v.heap.envs, S.From(env));
        var (envs', _) := S.Define(envs, local, "super", v.value);
        DefineClass(name, Some(v.heap.classes[v.value.klass]), methods, env, local, v.heap.(envs := envs'))
  }

  /** The rest of the `class` case, after the superclass. */
  function DefineClass(name: Token, superclass: Option<C.LoxClass>, methods: seq<S.Stmt>, env: nat, local: nat, h: C.Heap): (r: Run<()>)
    requires S.EnvsWf(h.envs) && env < |h.envs| && local < |h.envs|
    ensures r.Done? ==> Grown(h, r.heap)
    ensures r.Done? ==> |r.heap.classes| == |h.classes| + 1 && r.heap.classes[|h.classes|].superclass == superclass
    ensures r.Done? ==> Name(name).Some? && S.Get(r.heap.envs, env, Name(name).value, 0) == Some(BasicType.Class(|h.classes|))
    ensures r.Done? ==> |h.envs| < |r.heap.envs| && r.heap.envs[|h.envs|] == S.From(local) && (local != env ==> r.heap.envs[local] == h.envs[local])
    ensures r.Done? ==> forall key :: key in r.heap.classes[|h.classes|].methods ==> r.heap.classes[|h.classes|].methods[key].closure == |h.envs|
  {
    var (envs, inner) := S.Alloc(h.envs, S.From(local));
    var kmethods := ClassMethods(methods, inner, map[]);
    if kmethods.None? || Name(name).None? then Fail(NotIdentifier)
    else
      var klass := C.LoxClass(name, superclass, kmethods.value);
      var (envs', _) := S.Define(envs, env, Name(name).value, BasicType.Class(|h.classes|));
      Done((), h.(envs := envs', classes := h.classes + [klass]))
  }

  // ---------------------------------------------------------------------
  // Properties
  // ---------------------------------------------------------------------

  /**
   * `or` with a true left operand and `and` with a false one give that
   * boolean without evaluating the right operand: any right operand gives
   * the same result.  A left operand that is not a boolean is a failure.
   */
  lemma ShortCircuit(fuel: nat, left: E.Expr, op: Token, right1: E.Expr, right2: E.Expr, env: nat, h: C.Heap, table: Table)
    requires S.EnvsWf(h.envs) && env < |h.envs| && fuel > 0
    requires Eval(fuel - 1, left, env, h, table).Done?
    ensures var a := Eval(fuel - 1, left, env, h, table);
      a.value.Bool? && (op.ttype == Or <==> a.value.truth) ==>
        Eval(fuel, E.Logical(left, op, right1), env, h, table) == Eval(fuel, E.Logical(left, op, right2), env, h, table) == Done(a.value, a.heap)
    ensures var a := Eval(fuel - 1, left, env, h, table);
      !a.value.Bool? ==> Eval(fuel, E.Logical(left, op, right1), env, h, table) == Fail(RuntimeError)
    ensures var a := Eval(fuel - 1, left, env, h, table);
      a.value.Bool? && (op.ttype == Or <==> !a.value.truth) ==>
        Eval(fuel, E.Logical(left, op, right1), env, h, table) == Eval(fuel - 1, right1, env, a.heap, table)
  {
  }

  /** `if` and `while` fail on a condition that evaluates to something other than a boolean. */
  lemma ConditionMustBeBool(fuel: nat, c: E.Expr, thenBranch: S.Stmt, elseBranch: Option<S.Stmt>, body: S.Stmt, env: nat, h: C.Heap, table: Table)
    requires S.EnvsWf(h.envs) && env < |h.envs| && fuel > 0
    requires Eval(fuel - 1, c, env, h, table).Done? && !Eval(fuel - 1, c, env, h, table).value.Bool?
    ensures Exec(fuel, S.If(c, thenBranch, elseBranch), env, h, table) == Fail(RuntimeError)
    ensures Exec(fuel, S.While(c, body), env, h, table) == Fail(RuntimeError)
  {
  }

  /**
   * `while` is `if (c) { body; while (c) body }`: a false condition ends it,
   * and after a true condition and a successful body the loop starts over
   * from the new heap, evaluating the condition again.
   */
  lemma WhileUnrolls(fuel: nat, c: E.Expr, body: S.Stmt, env: nat, h: C.Heap, table: Table)
    requires S.EnvsWf(h.envs) && env < |h.envs| && fuel >= 2
    requires Eval(fuel - 1, c, env, h, table).Done? && Eval(fuel - 1, c, env, h, table).value.Bool?
    ensures var v := Eval(fuel - 1, c, env, h, table);
      !v.value.truth ==> Exec(fuel, S.While(c, body), env, h, table) == Done((), v.heap)
    ensures var v := Eval(fuel - 1, c, env, h, table);
      var x := Exec(fuel - 2, body, env, v.heap, table);
      v.value.truth && x.Done? ==> Exec(fuel, S.While(c, body), env, h, table) == Exec(fuel - 1, S.While(c, body), env, x.heap, table)
    ensures var v := Eval(fuel - 1, c, env, h, table);
      var x := Exec(fuel - 2, body, env, v.heap, table);
      v.value.truth && x.Fail? ==> Exec(fuel, S.While(c, body), env, h, table) == x
  {
    var v := Eval(fuel - 1, c, env, h, table);
    assert Condition(fuel - 1, c, env, h, table) == Done(v.value.truth, v.heap);
    if v.value.truth {
      var x := Exec(fuel - 2, body, env, v.heap, table);
      if x.Done? {
        assert Iterate(fuel - 2, c, body, env, v.heap, table) == Condition(fuel - 2, c, env, x.heap, table);
      } else {
        assert Iterate(fuel - 2, c, body, env, v.heap, table) == Propagate(x);
      }
    }
  }

  /** A `var` whose name the current environment already binds fails before its initializer runs. */
  lemma RedeclarationFails(fuel: nat, name: Token, initializer: Option<E.Expr>, env: nat, h: C.Heap, table: Table)
    requires S.EnvsWf(h.envs) && env < |h.envs| && fuel > 0
    requires Name(name).Some? && S.IsDefined(h.envs, env, Name(name).value)
    ensures Exec(fuel, S.Var(name, initializer), env, h, table) == Fail(RuntimeError)
  {
  }

  /** A fresh `var` without initializer binds nil in the current environment alone. */
  lemma VarDefinesNil(fuel: nat, name: Token, env: nat, h: C.Heap, table: Table)
    requires S.EnvsWf(h.envs) && env < |h.envs| && fuel > 0
    requires Name(name).Some? && !S.IsDefined(h.envs, env, Name(name).value)
    ensures var r := Exec(fuel, S.Var(name, Option.None), env, h, table);
      r.Done? && S.Get(r.heap.envs, env, Name(name).value, 0) == Some(BasicType.None) &&
      forall i :: 0 <= i < |h.envs| && i != env ==> r.heap.envs[i] == h.envs[i]
  {
  }

  /** A declaration inside a block lands in the block's own scope: the enclosing environment is untouched. */
  lemma BlockKeepsDeclarations(fuel: nat, name: Token, env: nat, h: C.Heap, table: Table)
    requires S.EnvsWf(h.envs) && env < |h.envs| && fuel >= 4 && Name(name).Some?
    ensures var r := Exec(fuel, S.Block([S.Var(name, Option.None)]), env, h, table);
      r.Done? && r.heap.envs[env] == h.envs[env]
  {
    var (envs, e) := S.Alloc(h.envs, S.From(env));
    var h1 := h.(envs := envs);
    assert !S.IsDefined(h1.envs, e, Name(name).value);
    var ss := [S.Var(name, Option.None)];
    var x := Exec(fuel - 2, ss[0], e, h1, table);
    assert x.Done? && x.heap.envs[env] == h.envs[env];
    assert ss[1..] == [];
    assert Interpret(fuel - 1, ss, e, h1, table) == Interpret(fuel - 2, [], e, x.heap, table);
  }

  /**
   * Assignment rebinds the name in the scope the resolver found, and the
   * expression's value is the binding it replaced (the result of the
   * environment's `assign`); with no binding to replace, it fails.
   */
  lemma AssignGivesPrevious(fuel: nat, name: Token, value: E.Expr, id: nat, env: nat, h: C.Heap, table: Table)
    requires S.EnvsWf(h.envs) && env < |h.envs| && fuel > 0
    requires Name(name).Some? && id in table && Eval(fuel - 1, value, env, h, table).Done?
    ensures var v := Eval(fuel - 1, value, env, h, table);
      var r := Eval(fuel, E.Assign(name, value, id), env, h, table);
      match S.Ancestor(v.heap.envs, env, table[id])
      case None => r == Fail(RuntimeError)
      case Some(a) =>
        (r.Done? <==> Name(name).value in v.heap.envs[a].values) &&
        (r.Done? ==> r.value == v.heap.envs[a].values[Name(name).value] &&
                     S.Get(r.heap.envs, env, Name(name).value, table[id]) == Some(v.value))
  {
    var v := Eval(fuel - 1, value, env, h, table);
    var key := Name(name).value;
    S.AssignAtAncestor(v.heap.envs, env, key, v.value, table[id]);
    if S.Ancestor(v.heap.envs, env, table[id]).Some? {
      S.AssignThenGet(v.heap.envs, env, key, v.value, table[id]);
    }
  }

  /** A missing property field is looked up along the class chain, and the bound method is one of the chain's. */
  lemma PropertyFromChain(h: C.Heap, instance: nat, key: string)
    requires S.EnvsWf(h.envs) && instance < |h.instances|
    requires key !in h.instances[instance].fields
    ensures var r := Property(h, instance, key);
      r.Done? ==> exists c :: C.InChain(c, h.instances[instance].klass) && key in c.methods &&
                    r.heap.functions[r.value.fun] == c.methods[key].(closure := |h.envs|)
    ensures C.LookupMethod(h.instances[instance].klass, key).None? ==> Property(h, instance, key) == Fail(RuntimeError)
  {
    var m := C.LookupMethod(h.instances[instance].klass, key);
    if m.Some? {
      C.LookupMethodFound(h.instances[instance].klass, key);
    }
  }

  /**
   * The scopes a class declaration with a superclass builds: every method
   * closes over a scope whose enclosing scope binds `super` to the
   * superclass, which is the resolver's layout (params, then `this`, then
   * `super`).
   */
  lemma MethodsSeeSuper(fuel: nat, name: Token, superclass: E.Expr, methods: seq<S.Stmt>, env: nat, h: C.Heap, table: Table)
    requires S.EnvsWf(h.envs) && env < |h.envs|
    ensures var r := ExecClass(fuel, name, Some(superclass), methods, env, h, table);
      r.Done? ==>
        var klass := r.heap.classes[|r.heap.classes| - 1];
        klass.superclass.Some? &&
        exists k: nat :: k < |r.heap.classes| - 1 && r.heap.classes[k] == klass.superclass.value &&
          forall key :: key in klass.methods ==>
            klass.methods[key].closure < |r.heap.envs| && S.Get(r.heap.envs, klass.methods[key].closure, "super", 1) == Some(BasicType.Class(k))
  {
    var r := ExecClass(fuel, name, Some(superclass), methods, env, h, table);
    if r.Done? {
      var v := Eval(fuel, superclass, env, h, table);
      var (envs, local) := S.Alloc(v.heap.envs, S.From(env));
      var (envs', _) := S.Define(envs, local, "super", v.value);
      var h' := v.heap.(envs := envs');
      assert r == DefineClass(name, Some(v.heap.classes[v.value.klass]), methods, env, local, h');
      var k := v.value.klass;
      var klass := r.heap.classes[|r.heap.classes| - 1];
      assert r.heap.classes[k] == v.heap.classes[k];
      forall key | key in klass.methods
        ensures klass.methods[key].closure < |r.heap.envs| && S.Get(r.heap.envs, klass.methods[key].closure, "super", 1) == Some(BasicType.Class(k))
      {
        assert klass.methods[key].closure == |h'.envs|;
        assert r.heap.envs[local] == h'.envs[local];
      }
    }
  }

  /**
   * Inside a bound method's body, `this` at the resolver's depth 1 is the
   * receiver, and every deeper depth reads what the method's closure reads
   * one scope nearer: the scopes the resolver counts are the scopes the
   * body walks.
   */
  lemma BoundBodyScopes(h: C.Heap, f: C.LoxFunction, instance: nat, args: seq<BasicType>)
    requires S.EnvsWf(h.envs) && f.closure < |h.envs| && |f.params| == |args|
    ensures var (h1, fn) := C.Bind(h, f, instance);
            var (envs, e) := S.Alloc(h1.envs, S.From(h1.functions[fn].closure));
            var p := BindParams(f.params, args, envs, e);
            p.Some? ==>
              S.Get(p.value, e, "this", 1) == Some(BasicType.Instance(instance)) &&
              forall key: string, d: int :: d >= 2 ==> S.Get(p.value, e, key, d) == S.Get(h.envs, f.closure, key, d - 1)
  {
    var (h1, fn) := C.Bind(h, f, instance);
    var b := h1.functions[fn].closure;
    var (envs, e) := S.Alloc(h1.envs, S.From(b));
    var p := BindParams(f.params, args, envs, e);
    if p.Some? {
      var q := p.value;
      assert q[..|h1.envs|] == h1.envs by {
        forall i | 0 <= i < |h1.envs| ensures q[i] == h1.envs[i] {
          assert envs[i] == envs[..|h1.envs|][i];
        }
      }
      C.BindSeesClosure(h, f, instance, "this", 0);
      S.GetPrefix(h1.envs, q, b, "this", 0);
      forall key: string, d: int | d >= 2
        ensures S.Get(q, e, key, d) == S.Get(h.envs, f.closure, key, d - 1)
      {
        S.GetPrefix(h1.envs, q, b, key, d - 1);
        C.BindSeesClosure(h, f, instance, key, d - 1);
      }
    }
  }

  /**
   * `super.m` written directly in a bound method's body, where the resolver
   * puts `super` at depth 2: when the method's closure sees the superclass
   * as `super` one scope out, the access looks `m` up from that superclass
   * and binds it to the method's receiver.
   */
  lemma SuperInBoundMethod(h: C.Heap, f: C.LoxFunction, instance: nat, args: seq<BasicType>, methodName: Token, id: nat, table: Table, k: nat)
    requires S.EnvsWf(h.envs) && f.closure < |h.envs| && |f.params| == |args|
    requires S.Get(h.envs, f.closure, "super", 1) == Some(BasicType.Class(k)) && k < |h.classes|
    requires id in table && table[id] == 2 && Name(methodName).Some?
    ensures var (h1, fn) := C.Bind(h, f, instance);
            var (envs, e) := S.Alloc(h1.envs, S.From(h1.functions[fn].closure));
            var p := BindParams(f.params, args, envs, e);
            p.Some? ==>
              SuperMethod(methodName, id, e, h1.(envs := p.value), table) ==
                BindMethod(h1.(envs := p.value), C.LookupMethod(h.classes[k], Name(methodName).value), instance)
  {
    BoundBodyScopes(h, f, instance, args);
  }

  /** A successful `super.m` is a method of the superclass chain, bound afresh. */
  lemma SuperFromChain(methodName: Token, id: nat, env: nat, h: C.Heap, table: Table)
    requires S.EnvsWf(h.envs) && env < |h.envs|
    ensures id !in table ==> SuperMethod(methodName, id, env, h, table) == Fail(RuntimeError)
    ensures var r := SuperMethod(methodName, id, env, h, table);
      r.Done? ==>
        id in table && Name(methodName).Some? &&
        exists k: nat :: S.Get(h.envs, env, "super", table[id]) == Some(BasicType.Class(k)) && k < |h.classes| &&
          exists c :: C.InChain(c, h.classes[k]) && Name(methodName).value in c.methods &&
            r.heap.functions[r.value.fun] == c.methods[Name(methodName).value].(closure := |h.envs|)
  {
    var r := SuperMethod(methodName, id, env, h, table);
    if r.Done? {
      var sv := S.Get(h.envs, env, "super", table[id]);
      C.LookupMethodFound(h.classes[sv.value.klass], Name(methodName).value);
    }
  }

  /** Calling a class ignores the arguments, whatever their number. */
  lemma ClassCallIgnoresArguments(fuel: nat, k: nat, args1: seq<BasicType>, args2: seq<BasicType>, h: C.Heap, table: Table)
    requires S.EnvsWf(h.envs) && k < |h.classes|
    ensures CallValue(fuel, BasicType.Class(k), args1, h, table) == CallValue(fuel, BasicType.Class(k), args2, h, table)
    ensures CallValue(fuel, BasicType.Class(k), args1, h, table) == Done(Instance(|h.instances|), C.ClassCall(h, h.classes[k]).0)
  {
  }

  /** Distinct parameter names are each bound to the argument in the same position. */
  lemma {:induction false} ParamsBound(params: seq<Token>, args: seq<BasicType>, envs: seq<S.Environment>, e: nat)
    requires |params| == |args| && e < |envs|
    requires forall i :: 0 <= i < |params| ==> Name(params[i]).Some?
    requires forall i, j :: 0 <= i < j < |params| ==> Name(params[i]) != Name(params[j])
    ensures BindParams(params, args, envs, e).Some?
    ensures forall i :: 0 <= i < |params| ==>
      Name(params[i]).value in BindParams(params, args, envs, e).value[e].values &&
      BindParams(params, args, envs, e).value[e].values[Name(params[i]).value] == args[i]
  {
    if params != [] {
      var envs1 := S.Define(envs, e, Name(params[0]).value, args[0]).0;
      assert forall i :: 1 <= i < |params| ==> params[1..][i - 1] == params[i];
      ParamsBound(params[1..], args[1..], envs1, e);
      ParamsKeep(params[1..], args[1..], envs1, e, Name(params[0]).value);
    }
  }

  /** Binding parameters leaves every other name of the scope as it was. */
  lemma {:induction false} ParamsKeep(params: seq<Token>, args: seq<BasicType>, envs: seq<S.Environment>, e: nat, key: string)
    requires |params| == |args| && e < |envs|
    requires BindParams(params, args, envs, e).Some?
    requires forall i :: 0 <= i < |params| ==> Name(params[i]) != Some(key)
    ensures key in envs[e].values ==>
      key in BindParams(params, args, envs, e).value[e].values && BindParams(params, args, envs, e).value[e].values[key] == envs[e].values[key]
  {
    if params != [] {
      var envs1 := S.Define(envs, e, Name(params[0]).value, args[0]).0;
      assert forall i :: 1 <= i < |params| ==> params[1..][i - 1] == params[i];
      ParamsKeep(params[1..], args[1..], envs1, e, key);
    }
  }

  /** A top-level `return` ends the body: the statements after it never run. */
  lemma ReturnEndsBody(fuel: nat, keyword: Token, value: Option<E.Expr>, rest: seq<S.Stmt>, env: nat, h: C.Heap, table: Table)
    requires S.EnvsWf(h.envs) && env < |h.envs|
    ensures ExecBody(fuel, [S.Return(keyword, value)] + rest, env, h, table) == ExecBody(fuel, [S.Return(keyword, value)], env, h, table)
    ensures fuel > 0 && value.None? ==> ExecBody(fuel, [S.Return(keyword, value)] + rest, env, h, table) == Done(Bool(true), h)
  {
  }
}

// `execute`, `interpret` and `LoxFunction::call` as the source runs them:
// loops over statements, parameters and arguments, each proved to give what
// the matching function of `Interpreter` gives.  Expressions are evaluated
// with `Interpreter.Eval`.
module Executor {
  import opened Wrappers
  import opened Token
  import E = Exprs
  import S = Stmts
  import C = Callable
  import I = Interpreter

  /** `interpret`. */
  method Interpret(fuel: nat, ss: seq<S.Stmt>, env: nat, h: C.Heap, table: I.Table) returns (r: I.Run<()>)
    requires S.EnvsWf(h.envs) && env < |h.envs|
    ensures r == I.Interpret(fuel, ss, env, h, table)
    decreases fuel, 2
  {
    var i, f: nat, heap := 0, fuel, h;
    while i < |ss|
      invariant i <= |ss| && f <= fuel && S.EnvsWf(heap.envs) && env < |heap.envs|
      invariant I.Interpret(fuel, ss, env, h, table) == I.Interpret(f, ss[i..], env, heap, table)
      decreases |ss| - i
    {
      if f == 0 {
        return I.Exhausted;
      }
      var x := Execute(f - 1, ss[i], env, heap, table);
      if !x.Done? {
        return x;
      }
      assert ss[i..][1..] == ss[i + 1..];
      i, f, heap := i + 1, f - 1, x.heap;
    }
    r := if f == 0 then I.Exhausted else I.Done((), heap);
  }

  /** `execute`. */
  method Execute(fuel: nat, s: S.Stmt, env: nat, h: C.Heap, table: I.Table) returns (r: I.Run<()>)
    requires S.EnvsWf(h.envs) && env < |h.envs|
    ensures r == I.Exec(fuel, s, env, h, table)
    decreases fuel, 3
  {
    if fuel == 0 {
      return I.Exhausted;
    }
    match s
    case Block(statements) =>
      var (envs, e) := S.Alloc(h.envs, S.From(env));
      r := Interpret(fuel - 1, statements, e, h.(envs := envs), table);
    case Class(name, superclass, methods) =>
      r := ExecuteClass(fuel - 1, name, superclass, methods, env, h, table);
    case Expression(expression) => r := I.Effect(fuel - 1, expression, env, h, table);
    case Function(name, params, body) =>
      var key := Name(name);
      if key.None? {
        return I.Fail(I.NotIdentifier);
      }
      var fn := C.LoxFunction(name, params, body, env);
      var (envs, _) := S.Define(h.envs, env, key.value, BasicType.Function(|h.functions|));
      r := I.Done((), h.(envs := envs, functions := h.functions + [fn]));
    case If(condition, thenBranch, elseBranch) =>
      var c := I.Condition(fuel - 1, condition, env, h, table);
      if !c.Done? {
        return I.Propagate(c);
      }
      if c.value {
        r := Execute(fuel - 1, thenBranch, env, c.heap, table);
      } else if elseBranch.Some? {
        r := Execute(fuel - 1, elseBranch.value, env, c.heap, table);
      } else {
        r := I.Done((), c.heap);
      }
    case Print(expression) => r := I.Effect(fuel - 1, expression, env, h, table);
    case Return(_, _) => r := I.Fail(I.InvalidReturn);
    case Var(name, initializer) =>
      var key := Name(name);
      if key.None? {
        return I.Fail(I.InvalidVariable);
      }
      if S.IsDefined(h.envs, env, key.value) {
        return I.Fail(I.RuntimeError);
      }
      if initializer.None? {
        return I.Done((), h.(envs := S.Define(h.envs, env, key.value, BasicType.None).0));
      }
      var v := I.Eval(fuel - 1, initializer.value, env, h, table);
      if v.Exhausted? {
        return I.Exhausted;
      } else if v.Fail? {
        return I.Fail(I.RuntimeError);
      }
      r := I.Done((), v.heap.(envs := S.Define(v.heap.envs, env, key.value, v.value).0));
    case While(condition, loopBody) =>
      r := ExecuteWhile(fuel - 1, condition, loopBody, env, h, table);
  }

  /** The `while` case: the condition, then the `while is_true` loop. */
  method ExecuteWhile(fuel: nat, condition: E.Expr, body: S.Stmt, env: nat, h: C.Heap, table: I.Table) returns (r: I.Run<()>)
    requires S.EnvsWf(h.envs) && env < |h.envs|
    ensures r == I.Exec(fuel + 1, S.While(condition, body), env, h, table)
    decreases fuel, 2
  {
    var c := I.Condition(fuel, condition, env, h, table);
    if !c.Done? {
      return I.Propagate(c);
    }
    r := LoopWhile(fuel, c.value, condition, body, env, c.heap, table);
  }

  /** The `while is_true` loop of the `while` case. */
  method LoopWhile(fuel: nat, isTrue0: bool, condition: E.Expr, body: S.Stmt, env: nat, h: C.Heap, table: I.Table) returns (r: I.Run<()>)
    requires S.EnvsWf(h.envs) && env < |h.envs|
    ensures r == I.ExecWhile(fuel, isTrue0, condition, body, env, h, table)
    decreases fuel, 1
  {
    ghost var goal := I.ExecWhile(fuel, isTrue0, condition, body, env, h, table);
    var isTrue, f: nat, heap := isTrue0, fuel, h;
    while f > 0 && isTrue
      invariant S.EnvsWf(heap.envs) && env < |heap.envs|
      invariant goal == I.ExecWhile(f, isTrue, condition, body, env, heap, table)
      decreases f
    {
      var c := Iteration(f - 1, condition, body, env, heap, table);
      if !c.Done? {
        return I.Propagate(c);
      }
      isTrue, f, heap := c.value, f - 1, c.heap;
    }
    r := if f == 0 then I.Exhausted else I.Done((), heap);
  }

  /** One turn of the loop: the body, then the condition. */
  method Iteration(fuel: nat, condition: E.Expr, body: S.Stmt, env: nat, h: C.Heap, table: I.Table) returns (r: I.Run<bool>)
    requires S.EnvsWf(h.envs) && env < |h.envs|
    ensures r == I.Iterate(fuel, condition, body, env, h, table)
    decreases fuel, 4
  {
    var x := Execute(fuel, body, env, h, table);
    if !x.Done? {
      return I.Propagate(x);
    }
    r := I.Condition(fuel, condition, env, x.heap, table);
  }

  /** The `class` case. */
  method ExecuteClass(fuel: nat, name: Token, superclass: Option<E.Expr>, methods: seq<S.Stmt>, env: nat, h: C.Heap, table: I.Table)
    returns (r: I.Run<()>)
    requires S.EnvsWf(h.envs) && env < |h.envs|
    ensures r == I.ExecClass(fuel, name, superclass, methods, env, h, table)
  {
    var sp: Option<C.LoxClass> := Option.None;
    var localEnv, heap := env, h;
    if superclass.Some? {
      var v := I.Eval(fuel, superclass.value, env, h, table);
      if v.Exhausted? {
        return I.Exhausted;
      }
      if v.Fail? || !v.value.Class? || v.value.klass >= |v.heap.classes| {
        return I.Fail(I.RuntimeError);
      }
      sp := Some(v.heap.classes[v.value.klass]);
      var (envs, e) := S.Alloc(v.heap.envs, S.From(env));
      var (envs', _) := S.Define(envs, e, "super", v.value);
      localEnv, heap := e, v.heap.(envs := envs');
    }
    var (envs, inner) := S.Alloc(heap.envs, S.From(localEnv));
    var kmethods := CollectMethods(methods, inner);
    var key := Name(name);
    if kmethods.None? || key.None? {
      return I.Fail(I.NotIdentifier);
    }
    var klass := C.LoxClass(name, sp, kmethods.value);
    var (envs', _) := S.Define(envs, env, key.value, BasicType.Class(|heap.classes|));
    r := I.Done((), heap.(envs := envs', classes := heap.classes + [klass]));
  }

  /** The method loop of the `class` case. */
  method CollectMethods(methods: seq<S.Stmt>, closure: nat) returns (r: Option<map<string, C.LoxFunction>>)
    ensures r == I.ClassMethods(methods, closure, map[])
  {
    var kmethods: map<string, C.LoxFunction> := map[];
    var i := 0;
    while i < |methods|
      invariant i <= |methods|
      invariant I.ClassMethods(methods, closure, map[]) == I.ClassMethods(methods[i..], closure, kmethods)
    {
      assert methods[i..][1..] == methods[i + 1..];
      if methods[i].Function? {
        var key := Name(methods[i].name);
        if key.None? {
          return Option.None;
        }
        kmethods := kmethods[key.value := C.LoxFunction(methods[i].name, methods[i].params, methods[i].body, closure)];
      }
      i := i + 1;
    }
    r := Some(kmethods);
  }

  /** The argument loop of a call. */
  method EvalArguments(fuel: nat, es: seq<E.Expr>, env: nat, h: C.Heap, table: I.Table) returns (r: I.Run<seq<BasicType>>)
    requires S.EnvsWf(h.envs) && env < |h.envs|
    ensures r == I.EvalArgs(fuel, es, [], env, h, table)
  {
    var args: seq<BasicType> := [];
    var i, f: nat, heap := 0, fuel, h;
    while i < |es|
      invariant i <= |es| && S.EnvsWf(heap.envs) && env < |heap.envs|
      invariant I.EvalArgs(fuel, es, [], env, h, table) == I.EvalArgs(f, es[i..], args, env, heap, table)
      decreases |es| - i
    {
      if f == 0 {
        return I.Exhausted;
      }
      var a := I.Eval(f - 1, es[i], env, heap, table);
      if !a.Done? {
        return I.Propagate(a);
      }
      assert es[i..][1..] == es[i + 1..];
      args, i, f, heap := args + [a.value], i + 1, f - 1, a.heap;
    }
    r := if f == 0 then I.Exhausted else I.Done(args, heap);
  }

  /** `LoxFunction::call`: the arity check, the parameter loop, then the body loop. */
  method CallFunction(fuel: nat, f: C.LoxFunction, args: seq<BasicType>, h: C.Heap, table: I.Table) returns (r: I.Run<BasicType>)
    requires S.EnvsWf(h.envs)
    ensures r == I.CallFunction(fuel, f, args, h, table)
  {
    if C.FunctionArity(f) != |args| {
      return I.Fail(I.WrongArguments);
    }
    if f.closure >= |h.envs| {
      return I.Fail(I.RuntimeError);
    }
    var (envs, e) := S.Alloc(h.envs, S.From(f.closure));
    var i := 0;
    while i < |f.params|
      invariant i <= |f.params| && |envs| == |h.envs| + 1 && S.EnvsWf(envs)
      invariant I.BindParams(f.params, args, S.Alloc(h.envs, S.From(f.closure)).0, e) == I.BindParams(f.params[i..], args[i..], envs, e)
    {
      assert f.params[i..][1..] == f.params[i + 1..] && args[i..][1..] == args[i + 1..];
      var key := Name(f.params[i]);
      if key.None? {
        return I.Fail(I.RuntimeError);
      }
      envs := S.Define(envs, e, key.value, args[i]).0;
      i := i + 1;
    }
    r := RunBody(fuel, f.body, e, h.(envs := envs), table);
  }

  /** The body loop of `call`. */
  method RunBody(fuel: nat, body: seq<S.Stmt>, env: nat, h: C.Heap, table: I.Table) returns (r: I.Run<BasicType>)
    requires S.EnvsWf(h.envs) && env < |h.envs|
    ensures r == I.ExecBody(fuel, body, env, h, table)
  {
    var i, f: nat, heap := 0, fuel, h;
    while i < |body|
      invariant i <= |body| && f <= fuel && S.EnvsWf(heap.envs) && env < |heap.envs|
      invariant I.ExecBody(fuel, body, env, h, table) == I.ExecBody(f, body[i..], env, heap, table)
      decreases |body| - i
    {
      if f == 0 {
        return I.Exhausted;
      }
      if body[i].Return? {
        if body[i].value.None? {
          return I.Done(Bool(true), heap);
        }
        return I.Eval(f - 1, body[i].value.value, env, heap, table);
      }
      var x := Execute(f - 1, body[i], env, heap, table);
      if x.Fail? {
        return I.Fail(I.FunctionFailed);
      } else if x.Exhausted? {
        return I.Exhausted;
      }
      assert body[i..][1..] == body[i + 1..];
      i, f, heap := i + 1, f - 1, x.heap;
    }
    r := if f == 0 then I.Exhausted else I.Done(Bool(true), heap);
  }
}
