// Functions, classes and instances of the tree-walking interpreter
// (src/callable.rs).  A class and a function never change once made, so the
// source's shared pointers to them are plain values here; instances and
// environments do change, so they live in the heap and are named by index.
// `LoxFunction::call` runs statements and therefore lives with the
// interpreter (interpreter.dfy), since Dafny modules cannot import each
// other in a cycle.

module Callable {
  import opened Wrappers
  import opened Token
  import opened Stmts

  datatype LoxFunction = LoxFunction(name: Token, params: seq<Token>, body: seq<Stmt>, closure: nat)

  datatype LoxClass = LoxClass(name: Token, superclass: Option<LoxClass>, methods: map<string, LoxFunction>)

  datatype LoxInstance = LoxInstance(klass: LoxClass, fields: map<string, BasicType>)

  /**
   * Everything the interpreter shares and mutates: environments, the
   * functions and classes `BasicType` values refer to, and instances.
   */
  datatype Heap = Heap(envs: seq<Environment>, functions: seq<LoxFunction>, classes: seq<LoxClass>, instances: seq<LoxInstance>)

  /** `LoxFunction::arity`: one argument per parameter. */
  function FunctionArity(f: LoxFunction): (r: nat)
    ensures r == |f.params|
  {
    |f.params|
  }

  /** `LoxClass::arity`: a class takes no constructor arguments. */
  function ClassArity(c: LoxClass): (r: nat)
    ensures r == 0
  {
    0
  }

  /** `find_method`: the class's own table alone; inherited methods are not seen here. */
  function FindMethod(c: LoxClass, key: string): (r: Option<LoxFunction>)
    ensures r.Some? <==> key in c.methods
    ensures r.Some? ==> r.value == c.methods[key]
  {
    if key in c.methods then Some(c.methods[key]) else Option.None
  }

  /** `LoxClass::superclass`: the parent the class was made with. */
  function Superclass(c: LoxClass): (r: Option<LoxClass>)
    ensures r == c.superclass
  {
    c.superclass
  }

  /** `c` is `k` or an ancestor of `k` along the superclass chain. */
  predicate InChain(c: LoxClass, k: LoxClass)
    decreases k
  {
    c == k || (k.superclass.Some? && InChain(c, k.superclass.value))
  }

  /**
   * The lookup loop of property access: the first class from `k` up the
   * superclass chain whose own table has `key`.
   */
  function LookupMethod(k: LoxClass, key: string): (r: Option<LoxFunction>)
    ensures key in k.methods ==> r == Some(k.methods[key])
    ensures r.None? ==> forall c :: InChain(c, k) ==> key !in c.methods
    decreases k
  {
    match FindMethod(k, key)
    case Some(f) => Some(f)
    case None =>
      match Superclass(k)
      case None => Option.None
      case Some(parent) => LookupMethod(parent, key)
  }

  /** A method found up the chain belongs to some class in the chain. */
  lemma {:induction false} LookupMethodFound(k: LoxClass, key: string)
    requires LookupMethod(k, key).Some?
    ensures exists c :: InChain(c, k) && key in c.methods && c.methods[key] == LookupMethod(k, key).value
    decreases k
  {
    if key in k.methods {
      assert InChain(k, k);
    } else {
      var parent := k.superclass.value;
      LookupMethodFound(parent, key);
      var c :| InChain(c, parent) && key in c.methods && c.methods[key] == LookupMethod(parent, key).value;
      assert InChain(c, k);
    }
  }

  /** The same loop as the source runs it. */
  method FindInChain(k: LoxClass, key: string) returns (r: Option<LoxFunction>)
    ensures r == LookupMethod(k, key)
  {
    var klass := k;
    while true
      invariant LookupMethod(k, key) == LookupMethod(klass, key)
      decreases klass
    {
      var m := FindMethod(klass, key);
      if m.Some? {
        return m;
      }
      match Superclass(klass)
      case None => return Option.None;
      case Some(parent) => klass := parent;
    }
  }

  /** `LoxInstance::new`: no fields yet. */
  function NewInstance(klass: LoxClass): (r: LoxInstance)
    ensures r.klass == klass && r.fields == map[]
  {
    LoxInstance(klass, map[])
  }

  /** `LoxClass::call`: a fresh instance of the class, added to the heap; the arguments are ignored. */
  function ClassCall(h: Heap, c: LoxClass): (r: (Heap, BasicType))
    ensures r.1 == Instance(|h.instances|) && r.0.instances == h.instances + [NewInstance(c)]
    ensures r.0.envs == h.envs && r.0.functions == h.functions && r.0.classes == h.classes
  {
    (h.(instances := h.instances + [NewInstance(c)]), Instance(|h.instances|))
  }

  /** `LoxInstance::set`: inserts or overwrites the field and gives back the value it replaced. */
  function InstanceSet(inst: LoxInstance, key: string, v: BasicType): (r: (LoxInstance, Option<BasicType>))
    ensures r.0.klass == inst.klass && r.0.fields == inst.fields[key := v]
    ensures r.1.Some? <==> key in inst.fields
    ensures r.1.Some? ==> r.1.value == inst.fields[key]
  {
    (inst.(fields := inst.fields[key := v]), Previous(inst.fields, key))
  }

  /**
   * `LoxFunction::bind` as written: `this` is defined in the function's own
   * closure, the environment every method of the class shares, and the
   * bound copy keeps that same closure.
   */
  function BindAsWritten(h: Heap, f: LoxFunction, instance: nat): (r: (Heap, nat))
    requires f.closure < |h.envs|
    ensures r.1 == |h.functions| && r.0.functions == h.functions + [f]
    ensures |r.0.envs| == |h.envs| && r.0.envs[f.closure].values == h.envs[f.closure].values["this" := Instance(instance)]
    ensures EnvsWf(h.envs) ==> EnvsWf(r.0.envs)
  {
    var (envs, _) := Define(h.envs, f.closure, "this", Instance(instance));
    (h.(envs := envs, functions := h.functions + [f]), |h.functions|)
  }

  /**
   * `bind` as evidently intended: each binding gets its own copy of the
   * closure's scope, with `this` defined in the copy, so each bound method
   * sees its own receiver and the copy encloses what the closure encloses.
   */
  function Bind(h: Heap, f: LoxFunction, instance: nat): (r: (Heap, nat))
    requires EnvsWf(h.envs) && f.closure < |h.envs|
    ensures r.1 == |h.functions| && |r.0.envs| == |h.envs| + 1 && r.0.envs[..|h.envs|] == h.envs
    ensures r.0.functions == h.functions + [f.(closure := |h.envs|)]
    ensures r.0.envs[|h.envs|] == Environment(h.envs[f.closure].values["this" := Instance(instance)], h.envs[f.closure].enclosing)
    ensures r.0.classes == h.classes && r.0.instances == h.instances && EnvsWf(r.0.envs)
  {
    var (envs, e) := Alloc(h.envs, h.envs[f.closure]);
    var (envs', _) := Define(envs, e, "this", Instance(instance));
    (h.(envs := envs', functions := h.functions + [f.(closure := e)]), |h.functions|)
  }

  /**
   * A bound method sees every scope its unbound closure sees, at every
   * depth, and `this` as the receiver in the nearest one.
   */
  lemma BindSeesClosure(h: Heap, f: LoxFunction, instance: nat, key: string, depth: int)
    requires EnvsWf(h.envs) && f.closure < |h.envs|
    ensures var (h1, fn) := Bind(h, f, instance);
            Get(h1.envs, h1.functions[fn].closure, key, depth) ==
              if depth == 0 && key == "this" then Some(Instance(instance)) else Get(h.envs, f.closure, key, depth)
  {
    var (h1, fn) := Bind(h, f, instance);
    var b := h1.functions[fn].closure;
    if depth != 0 && h.envs[f.closure].enclosing.Some? {
      GetPrefix(h.envs, h1.envs, h.envs[f.closure].enclosing.value, key, depth - 1);
    }
  }

  /** What a bound method's body sees as `this`. */
  function ThisOf(h: Heap, fn: nat): (r: Option<BasicType>)
    requires EnvsWf(h.envs)
  {
    if fn < |h.functions| && h.functions[fn].closure < |h.envs| then Get(h.envs, h.functions[fn].closure, "this", 0)
    else Option.None
  }

  /**
   * Binding the same method to two instances in turn: as written, the first
   * bound copy then sees the second instance as `this`.
   */
  lemma BindAsWrittenSharesThis(h: Heap, f: LoxFunction, a: nat, b: nat)
    requires EnvsWf(h.envs) && f.closure < |h.envs| && a != b
    ensures var (h1, fa) := BindAsWritten(h, f, a);
            var (h2, _) := BindAsWritten(h1, f, b);
            ThisOf(h2, fa) == Some(Instance(b)) != Some(Instance(a))
  {
  }

  /** With the intended `bind`, each bound copy keeps its own receiver, whatever is bound later. */
  lemma BindKeepsThis(h: Heap, f: LoxFunction, a: nat, b: nat)
    requires EnvsWf(h.envs) && f.closure < |h.envs|
    ensures var (h1, fa) := Bind(h, f, a);
            var (h2, fb) := Bind(h1, f, b);
            ThisOf(h1, fa) == Some(Instance(a)) && ThisOf(h2, fa) == Some(Instance(a)) && ThisOf(h2, fb) == Some(Instance(b))
  {
    var (h1, fa) := Bind(h, f, a);
    var (h2, fb) := Bind(h1, f, b);
    assert h2.functions[fa] == h1.functions[fa];
    assert h2.envs[|h.envs|] == h1.envs[|h.envs|];
  }
}
