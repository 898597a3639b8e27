/**
 * The bytecode path's values (src/object.rs).  Closures and upvalue cells,
 * which the VM uses but object.rs does not declare, are added here with the
 * shape the VM gives them.  Instances live behind a shared mutable cell, so
 * an instance value is an index into the VM's instance heap; upvalue cells
 * likewise are indices into the VM's cell heap.
 */
module Object {
  import opened Wrappers
  import opened Chunk

  datatype LoxType =
    | Nil                       // LoxType::None, displayed "Nil"
    | String(str: string)
    | Number(num: real)
    | Bool(truth: bool)
    | Function(fun: ObjFunction)
    | Class(klass: ObjClass)
    | Instance(ref: nat)
    | Closure(closure: ObjClosure)

  /** A compiled function: its arity, the number of upvalues it captures, its code and its name. */
  datatype ObjFunction = ObjFunction(arity: byte, upvalue: byte, chunk: Code<LoxType>, name: string)

  datatype ObjClass = ObjClass(name: string)

  datatype ObjInstance = ObjInstance(klass: ObjClass, fields: map<string, LoxType>)

  /** A function together with the cells of the variables it captured. */
  datatype ObjClosure = ObjClosure(fun: ObjFunction, upvalues: seq<nat>)

  /** An upvalue cell: still on the stack at an absolute address, or closed over a value. */
  datatype Upvalue = Stack(location: nat) | Out(value: LoxType)

  function AsString(v: LoxType): (r: Option<string>)
    ensures r.Some? <==> v.String?
    ensures r.Some? ==> v == String(r.value)
  {
    if v.String? then Some(v.str) else None
  }

  function AsNumber(v: LoxType): (r: Option<real>)
    ensures r.Some? <==> v.Number?
    ensures r.Some? ==> v == Number(r.value)
  {
    if v.Number? then Some(v.num) else None
  }

  /** The PartialEq of LoxType: strings by content, bools by value, nothing else is equal. */
  function Equal(a: LoxType, b: LoxType): bool
  {
    match (a, b)
    case (String(s1), String(s2)) => s1 == s2
    case (Bool(b1), Bool(b2)) => b1 == b2
    case _ => false
  }

  /** Equality is sound (equal values are identical) and symmetric. */
  lemma EqualSound(a: LoxType, b: LoxType)
    ensures Equal(a, b) ==> a == b
    ensures Equal(a, b) == Equal(b, a)
  {
  }

  /** A value equals itself exactly when it is a string or a bool: numbers and nil are never equal to themselves. */
  lemma EqualReflexiveOnly(a: LoxType)
    ensures Equal(a, a) <==> a.String? || a.Bool?
  {
  }

  function NewInstance(klass: ObjClass): (i: ObjInstance)
    ensures i.klass == klass && i.fields == map[]
  {
    ObjInstance(klass, map[])
  }

  /** A fresh closure has captured nothing yet. */
  function NewClosure(f: ObjFunction): (c: ObjClosure)
    ensures c.fun == f && c.upvalues == []
  {
    ObjClosure(f, [])
  }
}
