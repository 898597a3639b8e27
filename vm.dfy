/**
 * The bytecode virtual machine (src/vm.rs) as a step function on explicit
 * state.  The shared cells of the source are indices: `captures` maps an
 * absolute stack address to the index of its open upvalue cell in `cells`,
 * a closure lists the indices of its cells, and an Instance value indexes
 * `instances`.  Printed values are collected in `output`.
 */
module Vm {
  import opened Wrappers
  import opened Chunk
  import opened Object

  /** The stack may hold at most this many values before an instruction is fetched. */
  const StackMax: nat := 16 * 256

  datatype CallFrame = CallFrame(closure: ObjClosure, ip: nat, slot: nat)

  datatype VM = VM(
    stack: seq<LoxType>,
    globals: map<string, LoxType>,
    frames: seq<CallFrame>,
    captures: map<nat, nat>,
    cells: seq<Upvalue>,
    instances: seq<ObjInstance>,
    output: seq<LoxType>)

  /** Run-time errors, and the Rust panics (out-of-range index, pop from an empty stack, usize underflow). */
  datatype VmError =
    | StackOverflow
    | OperandMustBeNumber
    | OperandsMustBeNumbers
    | NotVariableName
    | UndefinedVariable(name: string)
    | UndefinedBeforeAssignment(name: string)
    | WrongArity(expected: byte, got: byte)
    | NotCallable
    | ClassNameNotString
    | PropertyUndefined(name: string)
    | NotPropertyName
    | NotInstance
    | ExpectFunction
    | UnknownCommand
    | ReadPastEnd             // a chunk read helper ran off the code or the constant pool
    | DivisionByZero          // IEEE division by zero is not modelled
    | Panic

  datatype StepResult =
    | Next(vm: VM)            // the run loop goes on from this state
    | Done(vm: VM)            // the run loop returned Ok(())
    | Stop(vm: VM, error: VmError)

  function Init(): (vm: VM)
    ensures vm.stack == [] && vm.frames == [] && vm.globals == map[] && vm.captures == map[]
  {
    VM([], map[], [], map[], [], [], [])
  }

  function Push(vm: VM, v: LoxType): (r: VM)
    ensures r.stack == vm.stack + [v]
    ensures r == vm.(stack := r.stack)
  {
    vm.(stack := vm.stack + [v])
  }

  /** Pop returns None where the source panics with "Pop from empty stack". */
  function Pop(vm: VM): (r: Option<(VM, LoxType)>)
    ensures r.None? <==> vm.stack == []
    ensures r.Some? ==> vm.stack == r.value.0.stack + [r.value.1] && r.value.0 == vm.(stack := r.value.0.stack)
  {
    if vm.stack == [] then None
    else Some((vm.(stack := vm.stack[..|vm.stack| - 1]), vm.stack[|vm.stack| - 1]))
  }

  /** peek(distance) reads `distance` places below the top; None where the index is out of range. */
  function Peek(vm: VM, distance: nat): (r: Option<LoxType>)
    ensures r.Some? <==> distance < |vm.stack|
    ensures r.Some? ==> r.value == vm.stack[|vm.stack| - 1 - distance]
  {
    if distance < |vm.stack| then Some(vm.stack[|vm.stack| - 1 - distance]) else None
  }

  /** Push and Pop are inverse. */
  lemma PushPop(vm: VM, v: LoxType)
    ensures Pop(Push(vm, v)) == Some((vm, v))
  {
    assert (vm.stack + [v])[..|vm.stack|] == vm.stack;
  }

  function Top(vm: VM): CallFrame
    requires vm.frames != []
  {
    vm.frames[|vm.frames| - 1]
  }

  function SetTop(vm: VM, f: CallFrame): (r: VM)
    requires vm.frames != []
    ensures r.frames != [] && Top(r) == f && |r.frames| == |vm.frames|
  {
    vm.(frames := vm.frames[|vm.frames| - 1 := f])
  }

  lemma SetTopTwice(vm: VM, f: CallFrame, g: CallFrame)
    requires vm.frames != []
    ensures SetTop(SetTop(vm, f), g) == SetTop(vm, g)
  {
    assert SetTop(SetTop(vm, f), g).frames == SetTop(vm, g).frames;
  }

  function CodeOf(f: CallFrame): Code<LoxType>
  {
    f.closure.fun.chunk
  }

  /** CallFrame::read_chunk: the byte at ip, with ip moved past it. */
  function ReadByte(vm: VM): (r: Option<(VM, byte)>)
    requires vm.frames != []
    ensures r.Some? <==> Top(vm).ip < |CodeOf(Top(vm)).code|
    ensures r.Some? ==> var (vm1, b) := r.value;
      vm1 == SetTop(vm, Top(vm).(ip := Top(vm).ip + 1)) && b == CodeOf(Top(vm)).code[Top(vm).ip]
  {
    var f := Top(vm);
    if f.ip < |CodeOf(f).code| then Some((SetTop(vm, f.(ip := f.ip + 1)), CodeOf(f).code[f.ip])) else None
  }

  /** CallFrame::read_jump: the USIZE bytes at ip decoded as a usize, with ip moved past them. */
  function ReadJump(vm: VM): (r: Option<(VM, nat)>)
    requires vm.frames != []
    ensures r.Some? <==> Top(vm).ip + USIZE <= |CodeOf(Top(vm)).code|
    ensures r.Some? ==> var (vm1, n) := r.value;
      var f := Top(vm);
      vm1 == SetTop(vm, f.(ip := f.ip + USIZE)) && n == FromBytes(CodeOf(f).code[f.ip..f.ip + USIZE])
  {
    var f := Top(vm);
    if f.ip + USIZE <= |CodeOf(f).code| then
      Some((SetTop(vm, f.(ip := f.ip + USIZE)), FromBytes(CodeOf(f).code[f.ip..f.ip + USIZE])))
    else None
  }

  /** CallFrame::read_constant. */
  function ReadConstant(vm: VM, pos: byte): (r: Option<LoxType>)
    requires vm.frames != []
    ensures r.Some? <==> (pos as nat) < |CodeOf(Top(vm)).constants|
    ensures r.Some? ==> r.value == CodeOf(Top(vm)).constants[pos]
  {
    var pool := CodeOf(Top(vm)).constants;
    if (pos as nat) < |pool| then Some(pool[pos]) else None
  }

  /** A byte operand followed by the constant it indexes. */
  function ReadConstantOperand(vm: VM): (r: Result<(VM, LoxType), VM>)
    requires vm.frames != []
    ensures r.Ok? ==> r.value.0.frames != [] && |r.value.0.frames| == |vm.frames|
    ensures r.Err? ==> r.error.frames != []
  {
    match ReadByte(vm)
    case None => Err(vm)
    case Some((vm1, offset)) =>
      match ReadConstant(vm1, offset)
      case None => Err(vm1)
      case Some(c) => Ok((vm1, c))
  }

  /**
   * VM::call: an arity mismatch is an error; otherwise a frame starts at
   * ip 0 with its slot at the callee, below the arguments.
   */
  function Call(vm: VM, clos: ObjClosure, argCount: byte): (r: Result<VM, VmError>)
    requires (argCount as nat) < |vm.stack|
    ensures r.Err? <==> argCount != clos.fun.arity
    ensures r.Err? ==> r.error == WrongArity(clos.fun.arity, argCount)
    ensures r.Ok? ==> r.value == vm.(frames := vm.frames + [CallFrame(clos, 0, |vm.stack| - argCount as nat - 1)])
  {
    if argCount != clos.fun.arity then Err(WrongArity(clos.fun.arity, argCount))
    else Ok(vm.(frames := vm.frames + [CallFrame(clos, 0, |vm.stack| - argCount as nat - 1)]))
  }

  /**
   * In the frame Call pushes, local 0 is the callee and locals 1 to argCount
   * are the arguments in order: the layout the compiler assumes when it
   * reserves local 0 of every function (Scope::init).
   */
  lemma CallFrameLayout(vm: VM, clos: ObjClosure, argCount: byte)
    requires (argCount as nat) < |vm.stack| && argCount == clos.fun.arity
    requires Peek(vm, argCount as nat) == Some(Closure(clos))
    ensures Call(vm, clos, argCount).Ok?
    ensures var s := Top(Call(vm, clos, argCount).value).slot;
      s < |vm.stack| && vm.stack[s] == Closure(clos) &&
      vm.stack[s + 1..] == vm.stack[|vm.stack| - argCount as nat..]
  {
  }

  /**
   * close_upvalues as the source writes it: the cell open at `slot` is
   * closed over the value on top of the stack, whichever slot it is.
   */
  function CloseUpvaluesAsWritten(vm: VM, slot: nat): (r: VM)
    requires vm.stack != []
    ensures r.stack == vm.stack && r.frames == vm.frames && r.globals == vm.globals && |r.cells| == |vm.cells|
    ensures slot in vm.captures && vm.captures[slot] < |vm.cells| ==>
      slot !in r.captures && r.cells[vm.captures[slot]] == Out(vm.stack[|vm.stack| - 1])
  {
    if slot in vm.captures && vm.captures[slot] < |vm.cells| then
      vm.(cells := vm.cells[vm.captures[slot] := Out(vm.stack[|vm.stack| - 1])],
          captures := vm.captures - {slot})
    else vm
  }

  /**
   * close_upvalues as intended: the cell open at `slot` is closed over the
   * value at that address, and it is no longer open.  Nothing happens when
   * no cell is open there.
   */
  function CloseUpvalues(vm: VM, slot: nat): (r: VM)
    requires slot < |vm.stack|
    ensures slot !in vm.captures ==> r == vm
    ensures slot !in r.captures && r.captures == vm.captures - {slot}
    ensures slot in vm.captures && vm.captures[slot] < |vm.cells| ==>
      r.cells == vm.cells[vm.captures[slot] := Out(vm.stack[slot])]
    ensures r.stack == vm.stack && r.frames == vm.frames && r.globals == vm.globals && |r.cells| == |vm.cells|
  {
    if slot in vm.captures && vm.captures[slot] < |vm.cells| then
      vm.(cells := vm.cells[vm.captures[slot] := Out(vm.stack[slot])],
          captures := vm.captures - {slot})
    else vm.(captures := vm.captures - {slot})
  }

  /** For the top slot, the one OP_CLOSE_UPVALUE closes, the two readings agree. */
  lemma CloseTopAgrees(vm: VM)
    requires vm.stack != [] && |vm.stack| - 1 in vm.captures && vm.captures[|vm.stack| - 1] < |vm.cells|
    ensures CloseUpvaluesAsWritten(vm, |vm.stack| - 1) == CloseUpvalues(vm, |vm.stack| - 1)
  {
  }

  /**
   * With two captured slots, the as-written closing gives the lower one the
   * top value: a function returning a closure over `a` in
   * `var a = 1; var b = 2;` sees 2 where it should see 1.
   */
  lemma CloseAsWrittenLosesValue()
    ensures var vm := Init().(stack := [Number(1.0), Number(2.0)], captures := map[0 := 0], cells := [Stack(0)]);
      CloseUpvaluesAsWritten(vm, 0).cells == [Out(Number(2.0))] &&
      CloseUpvalues(vm, 0).cells == [Out(Number(1.0))]
  {
  }

  /** The loop `for i in (lo..hi).rev() { close_upvalues(i) }`. */
  function CloseRange(vm: VM, lo: nat, hi: nat): (r: VM)
    requires hi <= |vm.stack|
    ensures r.stack == vm.stack && r.frames == vm.frames && r.globals == vm.globals && |r.cells| == |vm.cells|
    ensures forall a :: a in r.captures <==> a in vm.captures && !(lo <= a < hi)
    decreases hi
  {
    if hi <= lo then vm else CloseRange(CloseUpvalues(vm, hi - 1), lo, hi - 1)
  }

  /** Only nil and false are falsey: every number, string, object and true is truthy. */
  function IsFalsey(v: LoxType): (r: bool)
    ensures v.Bool? ==> r == !v.truth
    ensures !v.Nil? && !v.Bool? ==> !r
    ensures v.Nil? ==> r
  {
    v.Nil? || v == Bool(false)
  }

  /** OP_RETURN: pop the result, close the frame's cells, pop the frame; the last frame ends the run. */
  function ReturnOp(vm: VM): (r: StepResult)
    requires vm.frames != []
    ensures r.Next? ==> r.vm.frames == vm.frames[..|vm.frames| - 1] && r.vm.frames != [] && r.vm.globals == vm.globals
    ensures r.Done? ==> r.vm.frames == [] && |vm.frames| == 1
  {
    match Pop(vm)
    case None => Stop(vm, Panic)
    case Some((vm1, ret)) =>
      var slot := Top(vm1).slot;
      var vm2 := vm1.(frames := vm1.frames[..|vm1.frames| - 1]);
      var vm3 := if slot <= |vm2.stack| then CloseRange(vm2, slot, |vm2.stack|) else vm2;
      if vm3.frames == [] then
        match Pop(vm3)
        case None => Stop(vm3, Panic)
        case Some((vm4, _)) => Done(vm4)
      else
        Next(vm3.(stack := (if slot < |vm3.stack| then vm3.stack[..slot] else vm3.stack) + [ret]))
  }

  /** The arithmetic and comparison macros: two numbers b, a on top give `b op a`. */
  function NumberOp(vm: VM, op: byte): (r: StepResult)
    ensures !r.Done? && (r.Stop? ==> r.vm == vm)
    ensures r.Next? ==> |vm.stack| >= 2 && vm.stack[|vm.stack| - 1].Number? && vm.stack[|vm.stack| - 2].Number?
    ensures r.Next? ==> |r.vm.stack| == |vm.stack| - 1 && r.vm.stack[..|vm.stack| - 2] == vm.stack[..|vm.stack| - 2] &&
                        r.vm == vm.(stack := r.vm.stack)
    ensures op == OpDivide && Peek(vm, 1).Some? && Peek(vm, 1).value.Number? && Peek(vm, 0) == Some(Number(0.0)) ==>
              r == Stop(vm, DivisionByZero)
  {
    match (Peek(vm, 0), Peek(vm, 1))
    case (Some(Number(a)), Some(Number(b))) =>
      var rest := vm.stack[..|vm.stack| - 2];
      if op == OpSubtract then Next(vm.(stack := rest + [Number(b - a)]))
      else if op == OpMultiply then Next(vm.(stack := rest + [Number(b * a)]))
      else if op == OpDivide then
        if a == 0.0 then Stop(vm, DivisionByZero) else Next(vm.(stack := rest + [Number(b / a)]))
      else if op == OpGreater then Next(vm.(stack := rest + [Bool(b > a)]))
      else Next(vm.(stack := rest + [Bool(b < a)]))
    case (Some(_), Some(_)) => Stop(vm, OperandsMustBeNumbers)
    case _ => Stop(vm, Panic)
  }

  function AddOp(vm: VM): (r: StepResult)
    ensures !r.Done? && (r.Stop? ==> r.vm == vm)
    ensures r.Next? ==>
      |vm.stack| >= 2 &&
      ((vm.stack[|vm.stack| - 1].Number? && vm.stack[|vm.stack| - 2].Number?) ||
       (vm.stack[|vm.stack| - 1].String? && vm.stack[|vm.stack| - 2].String?))
    ensures r.Next? ==> |r.vm.stack| == |vm.stack| - 1 && r.vm.stack[..|vm.stack| - 2] == vm.stack[..|vm.stack| - 2] &&
                        r.vm == vm.(stack := r.vm.stack)
  {
    match (Peek(vm, 0), Peek(vm, 1))
    case (Some(Number(a)), Some(Number(b))) => Next(vm.(stack := vm.stack[..|vm.stack| - 2] + [Number(b + a)]))
    case (Some(String(a)), Some(String(b))) => Next(vm.(stack := vm.stack[..|vm.stack| - 2] + [String(b + a)]))
    case (Some(_), Some(_)) => Stop(vm, OperandsMustBeNumbers)
    case _ => Stop(vm, Panic)
  }

  function GlobalOp(vm: VM, op: byte): (r: StepResult)
    requires vm.frames != []
    ensures !r.Done?
    ensures r.Next? ==> |r.vm.frames| == |vm.frames| && r.vm.cells == vm.cells && r.vm.captures == vm.captures
    ensures r.Next? && op == OpDefineGlobal ==> |r.vm.stack| == |vm.stack| - 1 && vm.globals.Keys <= r.vm.globals.Keys
    ensures r.Next? && op == OpGetGlobal ==> |r.vm.stack| == |vm.stack| + 1 && r.vm.stack[..|vm.stack|] == vm.stack && r.vm.globals == vm.globals
    ensures r.Next? && op == OpSetGlobal ==> r.vm.stack == vm.stack && r.vm.globals.Keys == vm.globals.Keys
  {
    match ReadConstantOperand(vm)
    case Err(vm1) => Stop(vm1, ReadPastEnd)
    case Ok((vm1, constant)) =>
      match AsString(constant)
      case None => Stop(vm1, NotVariableName)
      case Some(name) =>
        if op == OpDefineGlobal then
          match Pop(vm1)
          case None => Stop(vm1, Panic)
          case Some((vm2, v)) => Next(vm2.(globals := vm2.globals[name := v]))
        else if op == OpGetGlobal then
          if name in vm1.globals then Next(Push(vm1, vm1.globals[name])) else Stop(vm1, UndefinedVariable(name))
        else
          match Peek(vm1, 0)
          case None => Stop(vm1, Panic)
          case Some(v) =>
            // The insert of an undefined name is undone before the error.
            if name in vm1.globals then Next(vm1.(globals := vm1.globals[name := v]))
            else Stop(vm1, UndefinedBeforeAssignment(name))
  }

  function LocalOp(vm: VM, op: byte): (r: StepResult)
    requires vm.frames != []
    ensures !r.Done?
    ensures r.Next? ==> r.vm.globals == vm.globals && |r.vm.frames| == |vm.frames|
    ensures r.Next? && op == OpGetLocal ==> |r.vm.stack| == |vm.stack| + 1 && r.vm.stack[..|vm.stack|] == vm.stack
    ensures r.Next? && op != OpGetLocal ==> |r.vm.stack| == |vm.stack| > 0 && r.vm.stack[|vm.stack| - 1] == vm.stack[|vm.stack| - 1]
  {
    match ReadByte(vm)
    case None => Stop(vm, ReadPastEnd)
    case Some((vm1, index)) =>
      var address := Top(vm1).slot + index as nat;
      if address >= |vm1.stack| || vm1.stack == [] then Stop(vm1, Panic)
      else if op == OpGetLocal then Next(Push(vm1, vm1.stack[address]))
      else Next(vm1.(stack := vm1.stack[address := vm1.stack[|vm1.stack| - 1]]))
  }

  function JumpOp(vm: VM, op: byte): (r: StepResult)
    requires vm.frames != []
    ensures !r.Done?
    ensures r.Next? ==> r.vm.stack == vm.stack && |r.vm.frames| == |vm.frames| && r.vm.frames[..|vm.frames| - 1] == vm.frames[..|vm.frames| - 1]
  {
    match ReadJump(vm)
    case None => Stop(vm, ReadPastEnd)
    case Some((vm1, offset)) =>
      var f := Top(vm1);
      if op == OpJumpIfFalse then
        match Peek(vm1, 0)
        case None => Stop(vm1, Panic)
        case Some(v) => if IsFalsey(v) then Next(SetTop(vm1, f.(ip := f.ip + offset))) else Next(vm1)
      else if op == OpJump then Next(SetTop(vm1, f.(ip := f.ip + offset)))
      else if offset <= f.ip then Next(SetTop(vm1, f.(ip := f.ip - offset)))
      else Stop(vm1, Panic)
  }

  /** OP_CALL: a closure callee gets a frame, a class callee becomes a new instance. */
  function CallOp(vm: VM): (r: StepResult)
    requires vm.frames != []
    ensures !r.Done?
    ensures r.Next? ==>
      (|r.vm.frames| == |vm.frames| + 1 && r.vm.stack == vm.stack) ||
      (|r.vm.frames| == |vm.frames| && |r.vm.instances| == |vm.instances| + 1 && |r.vm.stack| == |vm.stack|)
  {
    match ReadByte(vm)
    case None => Stop(vm, ReadPastEnd)
    case Some((vm1, count)) =>
      match Peek(vm1, count as nat)
      case None => Stop(vm1, Panic)
      case Some(Closure(clos)) =>
        (match Call(vm1, clos, count)
         case Err(e) => Stop(vm1, e)
         case Ok(vm2) => Next(vm2))
      case Some(Class(klass)) =>
        var vm2 := vm1.(stack := vm1.stack[..|vm1.stack| - 1]);
        Next(Push(vm2.(instances := vm2.instances + [NewInstance(klass)]), Instance(|vm2.instances|)))
      case Some(_) => Stop(vm1, NotCallable)
  }

  function PropertyOp(vm: VM, op: byte): (r: StepResult)
    requires vm.frames != []
    ensures !r.Done?
    ensures r.Next? ==> |r.vm.frames| == |vm.frames| && r.vm.globals == vm.globals
    ensures r.Next? && op == OpGetProperty ==> |r.vm.stack| == |vm.stack| && r.vm.instances == vm.instances
    ensures r.Next? && op != OpGetProperty ==> |r.vm.stack| == |vm.stack| - 1 && |r.vm.instances| == |vm.instances|
  {
    if op == OpGetProperty then
      match Pop(vm)
      case None => Stop(vm, Panic)
      case Some((vm1, Instance(ref))) =>
        (match ReadConstantOperand(vm1)
         case Err(vm2) => Stop(vm2, ReadPastEnd)
         case Ok((vm2, constant)) =>
           match AsString(constant)
           case None => Stop(vm2, NotPropertyName)
           case Some(name) =>
             if ref >= |vm2.instances| then Stop(vm2, Panic)
             else if name in vm2.instances[ref].fields then Next(Push(vm2, vm2.instances[ref].fields[name]))
             else Stop(vm2, PropertyUndefined(name)))
      case Some((vm1, _)) => Stop(vm1, NotInstance)
    else
      match Peek(vm, 1)
      case None => Stop(vm, Panic)
      case Some(Instance(ref)) =>
        (match ReadConstantOperand(vm)
         case Err(vm2) => Stop(vm2, ReadPastEnd)
         case Ok((vm2, constant)) =>
           match AsString(constant)
           case None => Stop(vm2, NotPropertyName)
           case Some(name) =>
             if ref >= |vm2.instances| then Stop(vm2, Panic)
             else
               var v := vm2.stack[|vm2.stack| - 1];
               var inst := vm2.instances[ref];
               var vm3 := vm2.(instances := vm2.instances[ref := inst.(fields := inst.fields[name := v])]);
               Next(vm3.(stack := vm3.stack[..|vm3.stack| - 2] + [v])))
      case Some(_) => Stop(vm, NotInstance)
  }

  datatype Captured = Captured(vm: VM, upvalues: seq<nat>) | CaptureFailed(vm: VM, error: VmError)

  /** Two operand bytes. */
  function ReadPair(vm: VM): (r: Result<(VM, byte, byte), VM>)
    requires vm.frames != []
    ensures r.Ok? ==> r.value.0.frames != [] && |r.value.0.frames| == |vm.frames|
    ensures r.Ok? ==> r.value.0 == SetTop(vm, Top(vm).(ip := Top(vm).ip + 2))
    ensures r.Ok? <==> Top(vm).ip + 2 <= |CodeOf(Top(vm)).code|
    ensures r.Ok? ==> r.value.1 == CodeOf(Top(vm)).code[Top(vm).ip] && r.value.2 == CodeOf(Top(vm)).code[Top(vm).ip + 1]
  {
    match ReadByte(vm)
    case None => Err(vm)
    case Some((vm1, first)) =>
      match ReadByte(vm1)
      case None => Err(vm1)
      case Some((vm2, second)) =>
        SetTopTwice(vm, Top(vm1), Top(vm2));
        Ok((vm2, first, second))
  }

  /**
   * One (is_local, index) descriptor of OP_CLOSURE.  A local is named by its
   * absolute address slot+index: the cell open there is reused, or a new
   * one is created and recorded in `captures`.  Otherwise the descriptor
   * names an upvalue of the current closure.  None is an out-of-range index.
   */
  function CaptureOne(vm: VM, isLocal: byte, index: byte): (r: Option<(VM, nat)>)
    requires vm.frames != []
    ensures r.Some? ==> r.value.0.frames == vm.frames && r.value.0.stack == vm.stack
    ensures r.Some? ==> |r.value.0.cells| >= |vm.cells|
  {
    if isLocal == 1 then
      var address := Top(vm).slot + index as nat;
      if address in vm.captures then Some((vm, vm.captures[address]))
      else
        var cell := |vm.cells|;
        Some((vm.(cells := vm.cells + [Stack(address)], captures := vm.captures[address := cell]), cell))
    else
      var enclosing := Top(vm).closure.upvalues;
      if (index as nat) < |enclosing| then Some((vm, enclosing[index])) else None
  }

  /** The `for _ in 0..upvalue` loop of OP_CLOSURE, collecting the cells of the new closure. */
  function CaptureUpvalues(vm: VM, n: nat, ups: seq<nat>): (r: Captured)
    requires vm.frames != []
    ensures r.Captured? ==> r.vm.frames != [] && |r.vm.frames| == |vm.frames|
    ensures r.Captured? ==> |r.upvalues| == |ups| + n && r.vm.stack == vm.stack
    decreases n
  {
    if n == 0 then Captured(vm, ups)
    else match ReadPair(vm)
      case Err(vm1) => CaptureFailed(vm1, ReadPastEnd)
      case Ok((vm1, isLocal, index)) =>
        match CaptureOne(vm1, isLocal, index)
        case None => CaptureFailed(vm1, Panic)
        case Some((vm2, cell)) => CaptureUpvalues(vm2, n - 1, ups + [cell])
  }

  function ClosureOp(vm: VM): (r: StepResult)
    requires vm.frames != []
    ensures !r.Done?
    ensures r.Next? ==> |r.vm.stack| == |vm.stack| + 1 && r.vm.stack[..|vm.stack|] == vm.stack && |r.vm.frames| == |vm.frames|
    ensures r.Next? ==> var c := r.vm.stack[|vm.stack|]; c.Closure? && |c.closure.upvalues| == c.closure.fun.upvalue as nat
  {
    match ReadConstantOperand(vm)
    case Err(vm1) => Stop(vm1, ReadPastEnd)
    case Ok((vm1, Function(fun))) =>
      (match CaptureUpvalues(vm1, fun.upvalue as nat, [])
       case CaptureFailed(vm2, e) => Stop(vm2, e)
       case Captured(vm2, ups) => Next(Push(vm2, Closure(ObjClosure(fun, ups)))))
    case Ok((vm1, _)) => Stop(vm1, ExpectFunction)
  }

  function UpvalueOp(vm: VM, op: byte): (r: StepResult)
    requires vm.frames != []
    ensures !r.Done?
    ensures r.Next? ==> r.vm.captures == vm.captures && |r.vm.cells| == |vm.cells| && |r.vm.frames| == |vm.frames|
    ensures r.Next? && op == OpGetUpvalue ==> |r.vm.stack| == |vm.stack| + 1 && r.vm.stack[..|vm.stack|] == vm.stack
    ensures r.Next? && op != OpGetUpvalue ==> |r.vm.stack| == |vm.stack|
  {
    if op == OpGetUpvalue then
      match ReadByte(vm)
      case None => Stop(vm, ReadPastEnd)
      case Some((vm1, index)) =>
        var ups := Top(vm1).closure.upvalues;
        if (index as nat) >= |ups| || ups[index] >= |vm1.cells| then Stop(vm1, Panic)
        else match vm1.cells[ups[index]]
          case Stack(location) =>
            if location < |vm1.stack| then Next(Push(vm1, vm1.stack[location])) else Stop(vm1, Panic)
          case Out(v) => Next(Push(vm1, v))
    else
      match Peek(vm, 0)
      case None => Stop(vm, Panic)
      case Some(v) =>
        match ReadByte(vm)
        case None => Stop(vm, ReadPastEnd)
        case Some((vm1, index)) =>
          var ups := Top(vm1).closure.upvalues;
          if (index as nat) >= |ups| || ups[index] >= |vm1.cells| then Stop(vm1, Panic)
          else match vm1.cells[ups[index]]
            case Stack(location) =>
              if location < |vm1.stack| then Next(vm1.(stack := vm1.stack[location := v])) else Stop(vm1, Panic)
            case Out(_) => Next(vm1.(cells := vm1.cells[ups[index] := Out(v)]))
  }

  /** Executes opcode `op`, whose byte the top frame has already read. */
  function Dispatch(vm: VM, op: byte): (r: StepResult)
    requires vm.frames != []
    ensures r.Done? ==> r.vm.frames == []
    ensures op == OpCloseUpvalue && r.Next? ==> |r.vm.stack| == |vm.stack| - 1 && |vm.stack| - 1 !in r.vm.captures
    ensures op > OpCloseUpvalue ==> r == Stop(vm, UnknownCommand)
  {
    if op == OpReturn then ReturnOp(vm)
    else if op in {OpConstant, OpNegate, OpNil, OpTrue, OpFalse, OpNot, OpEqual, OpPrint, OpPop, OpClass} then StackOp(vm, op)
    else if op == OpAdd then AddOp(vm)
    else if op in {OpSubtract, OpMultiply, OpDivide, OpGreater, OpLess} then NumberOp(vm, op)
    else if op in {OpDefineGlobal, OpGetGlobal, OpSetGlobal} then GlobalOp(vm, op)
    else if op in {OpGetLocal, OpSetLocal} then LocalOp(vm, op)
    else if op in {OpJumpIfFalse, OpJump, OpLoop} then JumpOp(vm, op)
    else if op == OpCall then CallOp(vm)
    else if op in {OpGetProperty, OpSetProperty} then PropertyOp(vm, op)
    else if op == OpClosure then ClosureOp(vm)
    else if op in {OpGetUpvalue, OpSetUpvalue} then UpvalueOp(vm, op)
    else if op == OpCloseUpvalue then
      if vm.stack == [] then Stop(vm, Panic)
      else
        var vm1 := CloseUpvalues(vm, |vm.stack| - 1);
        Next(vm1.(stack := vm1.stack[..|vm1.stack| - 1]))
    else Stop(vm, UnknownCommand)
  }

  /** The instructions that only push, pop or rewrite the top of the stack (OP_CLASS pushes a new class). */
  function StackOp(vm: VM, op: byte): (r: StepResult)
    requires vm.frames != []
    ensures !r.Done?
    ensures r.Next? ==> r.vm.globals == vm.globals && |r.vm.frames| == |vm.frames| && r.vm.captures == vm.captures
    ensures r.Next? && op in {OpConstant, OpNil, OpTrue, OpFalse, OpClass} ==> |r.vm.stack| == |vm.stack| + 1 && r.vm.stack[..|vm.stack|] == vm.stack
    ensures r.Next? && op in {OpNegate, OpNot} ==> |r.vm.stack| == |vm.stack| > 0 && r.vm.stack[..|vm.stack| - 1] == vm.stack[..|vm.stack| - 1]
    ensures r.Next? && op in {OpEqual, OpPrint, OpPop} ==> |r.vm.stack| == |vm.stack| - 1
    ensures r.Next? && op == OpPrint ==> r.vm.output == vm.output + [vm.stack[|vm.stack| - 1]]
  {
    if op == OpConstant then
      match ReadConstantOperand(vm)
      case Err(vm1) => Stop(vm1, ReadPastEnd)
      case Ok((vm1, c)) => Next(Push(vm1, c))
    else if op == OpNegate then
      match Peek(vm, 0)
      case None => Stop(vm, Panic)
      case Some(Number(x)) => Next(vm.(stack := vm.stack[..|vm.stack| - 1] + [Number(-x)]))
      case Some(_) => Stop(vm, OperandMustBeNumber)
    else if op == OpNil then Next(Push(vm, Nil))
    else if op == OpTrue then Next(Push(vm, Bool(true)))
    else if op == OpFalse then Next(Push(vm, Bool(false)))
    else if op == OpNot then
      match Pop(vm)
      case None => Stop(vm, Panic)
      case Some((vm1, v)) => Next(Push(vm1, Bool(IsFalsey(v))))
    else if op == OpEqual then
      match Pop(vm)
      case None => Stop(vm, Panic)
      case Some((vm1, left)) =>
        match Pop(vm1)
        case None => Stop(vm1, Panic)
        case Some((vm2, right)) => Next(Push(vm2, Bool(Equal(left, right))))
    else if op == OpPrint then
      match Pop(vm)
      case None => Stop(vm, Panic)
      case Some((vm1, v)) => Next(vm1.(output := vm1.output + [v]))
    else if op == OpPop then
      match Pop(vm)
      case None => Stop(vm, Panic)
      case Some((vm1, _)) => Next(vm1)
    else
      match ReadConstantOperand(vm)
      case Err(vm1) => Stop(vm1, ReadPastEnd)
      case Ok((vm1, c)) =>
        match AsString(c)
        case None => Stop(vm1, ClassNameNotString)
        case Some(name) => Next(Push(vm1, Class(ObjClass(name))))
  }

  /**
   * One turn of the run loop.  With no frames the loop has ended.  A frame
   * whose ip has reached the end of its code is never left: the outer loop
   * keeps selecting it, so the state does not change.  Before each fetch
   * the stack size is checked.
   */
  function Step(vm: VM): (r: StepResult)
    ensures vm.frames == [] ==> r == Done(vm)
    ensures r.Done? ==> r.vm.frames == []
    ensures vm.frames != [] && |vm.stack| > StackMax && Top(vm).ip < |CodeOf(Top(vm)).code| ==> r == Stop(vm, StackOverflow)
  {
    if vm.frames == [] then Done(vm)
    else
      var f := Top(vm);
      if f.ip >= |CodeOf(f).code| then Next(vm)
      else if |vm.stack| > StackMax then Stop(vm, StackOverflow)
      else Dispatch(SetTop(vm, f.(ip := f.ip + 1)), CodeOf(f).code[f.ip])
  }

  datatype Outcome = Finished(vm: VM) | Failed(vm: VM, error: VmError) | OutOfFuel(vm: VM)

  /** At most `fuel` turns of the run loop. */
  ghost function RunFor(vm: VM, fuel: nat): (r: Outcome)
    ensures fuel == 0 ==> r == OutOfFuel(vm)
    ensures r.Finished? ==> r.vm.frames == []
    decreases fuel
  {
    if fuel == 0 then OutOfFuel(vm)
    else match Step(vm)
      case Next(vm1) => RunFor(vm1, fuel - 1)
      case Done(vm1) => Finished(vm1)
      case Stop(vm1, e) => Failed(vm1, e)
  }

  /** VM::run, cut off after `fuel` instructions. */
  method Run(vm: VM, fuel: nat) returns (r: Outcome)
    ensures r == RunFor(vm, fuel)
  {
    var s, n := vm, fuel;
    while n > 0
      invariant RunFor(s, n) == RunFor(vm, fuel)
      decreases n
    {
      var step := Step(s);
      match step
      case Next(s1) => s, n := s1, n - 1;
      case Done(s1) => return Finished(s1);
      case Stop(s1, e) => return Failed(s1, e);
    }
    return OutOfFuel(s);
  }

  /** VM::interpret: push the script's closure, call it with no arguments (an arity error is ignored), run, and clear the stack on an error. */
  method Interpret(vm: VM, script: ObjFunction, fuel: nat) returns (r: Outcome)
    ensures var clos := NewClosure(script);
      var pushed := Push(vm, Closure(clos));
      var started := match Call(pushed, clos, 0) case Ok(v) => v case Err(_) => pushed;
      r == match RunFor(started, fuel)
           case Failed(v, e) => Failed(v.(stack := []), e)
           case other => other
  {
    var clos := NewClosure(script);
    var pushed := Push(vm, Closure(clos));
    var started := match Call(pushed, clos, 0) case Ok(v) => v case Err(_) => pushed;
    r := Run(started, fuel);
    if r.Failed? {
      r := Failed(r.vm.(stack := []), r.error);
    }
  }
}
