/** Properties of single VM steps and of the jump encoding the compiler and the VM share. */
module VmProperties {
  import opened Wrappers
  import opened Chunk
  import opened Object
  import opened Vm

  /** The top frame is about to execute `op`. */
  ghost predicate At(vm: VM, op: byte)
  {
    vm.frames != [] && Top(vm).ip < |CodeOf(Top(vm)).code| && CodeOf(Top(vm)).code[Top(vm).ip] == op
  }

  /** The state with the top frame's ip moved forward by k. */
  function Advanced(vm: VM, k: nat): VM
    requires vm.frames != []
  {
    SetTop(vm, Top(vm).(ip := Top(vm).ip + k))
  }

  /** The byte after the opcode indexes the constant `c`. */
  ghost predicate ConstantOperand(vm: VM, c: LoxType)
    requires vm.frames != []
  {
    var f := Top(vm);
    var code := CodeOf(f);
    f.ip + 1 < |code.code| && code.code[f.ip + 1] as nat < |code.constants| && code.constants[code.code[f.ip + 1]] == c
  }

  /** Whatever instruction is next, more than 16*256 stack values stop the run with "Stack overflow". */
  lemma StackOverflowStops(vm: VM)
    requires vm.frames != [] && Top(vm).ip < |CodeOf(Top(vm)).code|
    requires |vm.stack| > StackMax
    ensures Step(vm) == Stop(vm, StackOverflow)
  {
  }

  /** OP_ADD: two numbers add, two strings concatenate left then right, anything else fails leaving the stack as it was. */
  lemma AddSemantics(vm: VM, rest: seq<LoxType>, b: LoxType, a: LoxType)
    requires At(vm, OpAdd) && |vm.stack| <= StackMax && vm.stack == rest + [b, a]
    ensures b.Number? && a.Number? ==> Step(vm) == Next(Advanced(vm, 1).(stack := rest + [Number(b.num + a.num)]))
    ensures b.String? && a.String? ==> Step(vm) == Next(Advanced(vm, 1).(stack := rest + [String(b.str + a.str)]))
    ensures !(b.Number? && a.Number?) && !(b.String? && a.String?) ==>
      Step(vm) == Stop(Advanced(vm, 1), OperandsMustBeNumbers) && Advanced(vm, 1).stack == vm.stack
  {
    assert vm.stack[..|vm.stack| - 2] == rest;
  }

  /** OP_NOT: only nil and false become true. */
  lemma NotSemantics(vm: VM, rest: seq<LoxType>, v: LoxType)
    requires At(vm, OpNot) && |vm.stack| <= StackMax && vm.stack == rest + [v]
    ensures Step(vm) == Next(Advanced(vm, 1).(stack := rest + [Bool(v.Nil? || v == Bool(false))]))
  {
  }

  /**
   * OP_JUMP_IF_FALSE: the operand stays on the stack; the jump is taken
   * exactly for nil and false, landing `offset` bytes after the operand.
   */
  lemma JumpIfFalseSemantics(vm: VM)
    requires At(vm, OpJumpIfFalse) && |vm.stack| <= StackMax && vm.stack != []
    requires Top(vm).ip + 1 + USIZE <= |CodeOf(Top(vm)).code|
    ensures var f := Top(vm);
      var offset := FromBytes(CodeOf(f).code[f.ip + 1..f.ip + 1 + USIZE]);
      var v := vm.stack[|vm.stack| - 1];
      Step(vm) == Next(Advanced(vm, 1 + USIZE + (if v.Nil? || v == Bool(false) then offset else 0)))
  {
  }

  /** OP_DEFINE_GLOBAL binds the name to the top value and pops it. */
  lemma DefineGlobalSemantics(vm: VM, rest: seq<LoxType>, v: LoxType, name: string)
    requires At(vm, OpDefineGlobal) && |vm.stack| <= StackMax && vm.stack == rest + [v]
    requires ConstantOperand(vm, String(name))
    ensures Step(vm) == Next(Advanced(vm, 2).(stack := rest, globals := vm.globals[name := v]))
  {
  }

  /** OP_GET_GLOBAL pushes the bound value, and fails on an undefined name. */
  lemma GetGlobalSemantics(vm: VM, name: string)
    requires At(vm, OpGetGlobal) && |vm.stack| <= StackMax
    requires ConstantOperand(vm, String(name))
    ensures name in vm.globals ==> Step(vm) == Next(Push(Advanced(vm, 2), vm.globals[name]))
    ensures name !in vm.globals ==> Step(vm) == Stop(Advanced(vm, 2), UndefinedVariable(name))
  {
  }

  /** OP_SET_GLOBAL rebinds a defined name without popping; an undefined name fails and the globals stay as they were. */
  lemma SetGlobalSemantics(vm: VM, name: string)
    requires At(vm, OpSetGlobal) && |vm.stack| <= StackMax && vm.stack != []
    requires ConstantOperand(vm, String(name))
    ensures name in vm.globals ==>
      Step(vm) == Next(Advanced(vm, 2).(globals := vm.globals[name := vm.stack[|vm.stack| - 1]]))
    ensures name !in vm.globals ==>
      Step(vm) == Stop(Advanced(vm, 2), UndefinedBeforeAssignment(name)) && Advanced(vm, 2).globals == vm.globals
  {
  }

  /**
   * OP_SUBTRACT, OP_MULTIPLY, OP_DIVIDE, OP_GREATER and OP_LESS on two numbers
   * b, a replace them with `b op a`; any other operands fail leaving the stack
   * as it was.  Dividing by zero stops the run.
   */
  lemma NumberSemantics(vm: VM, op: byte, rest: seq<LoxType>, b: LoxType, a: LoxType)
    requires op in {OpSubtract, OpMultiply, OpDivide, OpGreater, OpLess}
    requires At(vm, op) && |vm.stack| <= StackMax && vm.stack == rest + [b, a]
    ensures b.Number? && a.Number? && op == OpSubtract ==> Step(vm) == Next(Advanced(vm, 1).(stack := rest + [Number(b.num - a.num)]))
    ensures b.Number? && a.Number? && op == OpMultiply ==> Step(vm) == Next(Advanced(vm, 1).(stack := rest + [Number(b.num * a.num)]))
    ensures b.Number? && a.Number? && op == OpDivide && a.num != 0.0 ==>
      Step(vm) == Next(Advanced(vm, 1).(stack := rest + [Number(b.num / a.num)]))
    ensures b.Number? && a.Number? && op == OpDivide && a.num == 0.0 ==> Step(vm) == Stop(Advanced(vm, 1), DivisionByZero)
    ensures b.Number? && a.Number? && op == OpGreater ==> Step(vm) == Next(Advanced(vm, 1).(stack := rest + [Bool(b.num > a.num)]))
    ensures b.Number? && a.Number? && op == OpLess ==> Step(vm) == Next(Advanced(vm, 1).(stack := rest + [Bool(b.num < a.num)]))
    ensures !(b.Number? && a.Number?) ==> Step(vm) == Stop(Advanced(vm, 1), OperandsMustBeNumbers) && Advanced(vm, 1).stack == vm.stack
  {
    var vm1 := Advanced(vm, 1);
    assert Step(vm) == NumberOp(vm1, op);
    assert vm1.stack[..|vm1.stack| - 2] == rest;
    if b.Number? && a.Number? && op == OpMultiply {
      var r := NumberOp(vm1, op);
      assert r.vm.stack[..|rest|] == rest && r.vm.stack[|rest|] == Number(b.num * a.num);
    }
  }

  /** OP_CONSTANT pushes the constant its operand names; OP_NIL, OP_TRUE and OP_FALSE push their value. */
  lemma ConstantSemantics(vm: VM, c: LoxType)
    requires At(vm, OpConstant) && |vm.stack| <= StackMax && ConstantOperand(vm, c)
    ensures Step(vm) == Next(Push(Advanced(vm, 2), c))
  {
  }

  lemma LiteralSemantics(vm: VM, op: byte)
    requires op in {OpNil, OpTrue, OpFalse} && At(vm, op) && |vm.stack| <= StackMax
    ensures Step(vm) == Next(Push(Advanced(vm, 1), if op == OpNil then Nil else Bool(op == OpTrue)))
  {
  }

  /** OP_NEGATE negates a number on top, and fails on anything else leaving the stack as it was. */
  lemma NegateSemantics(vm: VM, rest: seq<LoxType>, v: LoxType)
    requires At(vm, OpNegate) && |vm.stack| <= StackMax && vm.stack == rest + [v]
    ensures v.Number? ==> Step(vm) == Next(Advanced(vm, 1).(stack := rest + [Number(-v.num)]))
    ensures !v.Number? ==> Step(vm) == Stop(Advanced(vm, 1), OperandMustBeNumber) && Advanced(vm, 1).stack == vm.stack
  {
    assert vm.stack[..|vm.stack| - 1] == rest;
  }

  /** OP_EQUAL replaces the two top values by whether they compare equal. */
  lemma EqualSemantics(vm: VM, rest: seq<LoxType>, b: LoxType, a: LoxType)
    requires At(vm, OpEqual) && |vm.stack| <= StackMax && vm.stack == rest + [b, a]
    ensures Step(vm) == Next(Advanced(vm, 1).(stack := rest + [Bool(Equal(a, b))]))
  {
    assert (rest + [b, a])[..|rest| + 1] == rest + [b];
  }

  /** OP_PRINT pops the top and outputs it; OP_POP only pops it. */
  lemma PrintPopSemantics(vm: VM, rest: seq<LoxType>, v: LoxType)
    requires At(vm, OpPrint) || At(vm, OpPop)
    requires |vm.stack| <= StackMax && vm.stack == rest + [v]
    ensures At(vm, OpPrint) ==> Step(vm) == Next(Advanced(vm, 1).(stack := rest, output := vm.output + [v]))
    ensures At(vm, OpPop) ==> Step(vm) == Next(Advanced(vm, 1).(stack := rest))
  {
  }

  /** OP_CLASS pushes a new class named by its string constant. */
  lemma ClassSemantics(vm: VM, name: string)
    requires At(vm, OpClass) && |vm.stack| <= StackMax && ConstantOperand(vm, String(name))
    ensures Step(vm) == Next(Push(Advanced(vm, 2), Class(ObjClass(name))))
  {
  }

  /** The byte operand of the instruction at the top frame's ip. */
  function Operand(vm: VM): byte
    requires vm.frames != [] && Top(vm).ip + 1 < |CodeOf(Top(vm)).code|
  {
    CodeOf(Top(vm)).code[Top(vm).ip + 1]
  }

  /**
   * OP_GET_LOCAL pushes the value in slot `slot + index` of the stack, and
   * OP_SET_LOCAL copies the top into that slot, leaving the top in place.
   */
  lemma LocalSemantics(vm: VM)
    requires (At(vm, OpGetLocal) || At(vm, OpSetLocal)) && |vm.stack| <= StackMax
    requires Top(vm).ip + 1 < |CodeOf(Top(vm)).code|
    ensures var address := Top(vm).slot + Operand(vm) as nat;
      address < |vm.stack| ==>
        Step(vm) == Next(if At(vm, OpGetLocal) then Push(Advanced(vm, 2), vm.stack[address])
                         else Advanced(vm, 2).(stack := vm.stack[address := vm.stack[|vm.stack| - 1]]))
  {
  }

  /**
   * OP_GET_UPVALUE pushes the value of the closure's cell `index`: the stack
   * slot an open cell names, or the value a closed cell holds.
   */
  lemma GetUpvalueSemantics(vm: VM)
    requires At(vm, OpGetUpvalue) && |vm.stack| <= StackMax
    requires Top(vm).ip + 1 < |CodeOf(Top(vm)).code|
    requires Operand(vm) as nat < |Top(vm).closure.upvalues| && Top(vm).closure.upvalues[Operand(vm)] < |vm.cells|
    ensures var cell := vm.cells[Top(vm).closure.upvalues[Operand(vm)]];
      (cell.Out? ==> Step(vm) == Next(Push(Advanced(vm, 2), cell.value))) &&
      (cell.Stack? && cell.location < |vm.stack| ==> Step(vm) == Next(Push(Advanced(vm, 2), vm.stack[cell.location])))
  {
  }

  /**
   * OP_SET_UPVALUE writes the top into the closure's cell `index`: into the
   * stack slot an open cell names, or into a closed cell itself.
   */
  lemma SetUpvalueSemantics(vm: VM, rest: seq<LoxType>, v: LoxType)
    requires At(vm, OpSetUpvalue) && |vm.stack| <= StackMax && vm.stack == rest + [v]
    requires Top(vm).ip + 1 < |CodeOf(Top(vm)).code|
    requires Operand(vm) as nat < |Top(vm).closure.upvalues| && Top(vm).closure.upvalues[Operand(vm)] < |vm.cells|
    ensures var c := Top(vm).closure.upvalues[Operand(vm)];
      (vm.cells[c].Out? ==> Step(vm) == Next(Advanced(vm, 2).(cells := vm.cells[c := Out(v)]))) &&
      (vm.cells[c].Stack? && vm.cells[c].location < |vm.stack| ==>
         Step(vm) == Next(Advanced(vm, 2).(stack := vm.stack[vm.cells[c].location := v])))
  {
  }

  /**
   * OP_GET_PROPERTY replaces an instance on top by its field, and fails when
   * the field is not set; OP_SET_PROPERTY stores the top in the field of the
   * instance below it and leaves the value in the instance's place.
   */
  lemma GetPropertySemantics(vm: VM, rest: seq<LoxType>, ref: nat, name: string)
    requires At(vm, OpGetProperty) && |vm.stack| <= StackMax && vm.stack == rest + [Instance(ref)]
    requires ConstantOperand(vm, String(name)) && ref < |vm.instances|
    ensures name in vm.instances[ref].fields ==>
      Step(vm) == Next(Advanced(vm, 2).(stack := rest + [vm.instances[ref].fields[name]]))
    ensures name !in vm.instances[ref].fields ==> Step(vm) == Stop(Advanced(vm, 2).(stack := rest), PropertyUndefined(name))
  {
  }

  lemma SetPropertySemantics(vm: VM, rest: seq<LoxType>, ref: nat, v: LoxType, name: string)
    requires At(vm, OpSetProperty) && |vm.stack| <= StackMax && vm.stack == rest + [Instance(ref), v]
    requires ConstantOperand(vm, String(name)) && ref < |vm.instances|
    ensures var inst := vm.instances[ref];
      Step(vm) == Next(Advanced(vm, 2).(stack := rest + [v], instances := vm.instances[ref := inst.(fields := inst.fields[name := v])]))
  {
    assert (rest + [Instance(ref), v])[..|rest|] == rest;
  }

  /**
   * OP_CALL with `count` arguments: a closure below them is called through
   * Call; a class becomes a fresh instance, which replaces the top value.
   */
  lemma CallSemantics(vm: VM)
    requires At(vm, OpCall) && |vm.stack| <= StackMax
    requires Top(vm).ip + 1 < |CodeOf(Top(vm)).code| && (Operand(vm) as nat) < |vm.stack|
    ensures var callee := vm.stack[|vm.stack| - 1 - Operand(vm) as nat];
      var vm1 := Advanced(vm, 2);
      (callee.Closure? ==>
         Step(vm) == match Call(vm1, callee.closure, Operand(vm)) case Ok(vm2) => Next(vm2) case Err(e) => Stop(vm1, e)) &&
      (callee.Class? ==>
         Step(vm) == Next(vm1.(stack := vm.stack[..|vm.stack| - 1] + [Instance(|vm.instances|)],
                               instances := vm.instances + [NewInstance(callee.klass)]))) &&
      (!callee.Closure? && !callee.Class? ==> Step(vm) == Stop(vm1, NotCallable))
  {
  }

  /**
   * OP_RETURN from an inner frame: the frame is popped and the stack is cut
   * back to the frame's slot with the result pushed; from the last frame the
   * run finishes after one more pop.
   */
  lemma ReturnSemantics(vm: VM, rest: seq<LoxType>, ret: LoxType)
    requires At(vm, OpReturn) && |vm.stack| <= StackMax && vm.stack == rest + [ret]
    requires Top(vm).slot < |rest|
    ensures |vm.frames| > 1 ==>
              Step(vm).Next? && Step(vm).vm.frames == vm.frames[..|vm.frames| - 1] &&
              Step(vm).vm.stack == rest[..Top(vm).slot] + [ret]
    ensures |vm.frames| == 1 ==>
              Step(vm).Done? && Step(vm).vm.frames == [] && Step(vm).vm.stack == rest[..|rest| - 1]
    ensures forall a :: a in Step(vm).vm.captures <==> a in vm.captures && !(Top(vm).slot <= a < |rest|)
    ensures CellsWf(vm) ==>
              forall a :: Top(vm).slot <= a < |rest| && a in vm.captures ==> Step(vm).vm.cells[vm.captures[a]] == Out(rest[a])
  {
    var vm1 := Advanced(vm, 1).(stack := rest);
    assert Pop(Advanced(vm, 1)) == Some((vm1, ret));
    var slot := Top(vm1).slot;
    var vm2 := vm1.(frames := vm1.frames[..|vm1.frames| - 1]);
    var vm3 := CloseRange(vm2, slot, |vm2.stack|);
    assert vm3.stack == rest;
    if CellsWf(vm) {
      assert CellsWf(vm2);
      CloseRangeCloses(vm2, slot, |vm2.stack|);
    }
  }

  /** A local descriptor leaves the address recorded with the cell it produced. */
  lemma CaptureLocalRecords(vm: VM, index: byte)
    requires vm.frames != []
    ensures CaptureOne(vm, 1, index).Some?
    ensures var address := Top(vm).slot + index as nat;
      var (vm1, cell) := CaptureOne(vm, 1, index).value;
      address in vm1.captures && vm1.captures[address] == cell &&
      (address in vm.captures ==> vm1 == vm && cell == vm.captures[address])
  {
  }

  /** One turn of the descriptor loop. */
  lemma CaptureTurn(vm: VM, n: nat, ups: seq<nat>)
    requires vm.frames != [] && n > 0
    requires Top(vm).ip + 2 <= |CodeOf(Top(vm)).code|
    ensures var f := Top(vm); var code := CodeOf(f).code;
      var vm1 := SetTop(vm, f.(ip := f.ip + 2));
      var c := CaptureOne(vm1, code[f.ip], code[f.ip + 1]);
      c.Some? ==> CaptureUpvalues(vm, n, ups) == CaptureUpvalues(c.value.0, n - 1, ups + [c.value.1])
  {
    var f := Top(vm);
    var code := CodeOf(f).code;
    assert ReadPair(vm) == Ok((SetTop(vm, f.(ip := f.ip + 2)), code[f.ip], code[f.ip + 1]));
  }

  /** A turn of the descriptor loop on a local descriptor `(1, index)`. */
  lemma LocalTurn(vm: VM, n: nat, ups: seq<nat>, index: byte) returns (vm2: VM, cell: nat)
    requires vm.frames != [] && n > 0
    requires Top(vm).ip + 2 <= |CodeOf(Top(vm)).code|
    requires CodeOf(Top(vm)).code[Top(vm).ip] == 1 && CodeOf(Top(vm)).code[Top(vm).ip + 1] == index
    ensures vm2.frames != [] && Top(vm2) == Top(vm).(ip := Top(vm).ip + 2)
    ensures CaptureUpvalues(vm, n, ups) == CaptureUpvalues(vm2, n - 1, ups + [cell])
    ensures var address := Top(vm).slot + index as nat;
      address in vm2.captures && vm2.captures[address] == cell &&
      (address in vm.captures ==> cell == vm.captures[address])
  {
    var f := Top(vm);
    var vm1 := SetTop(vm, f.(ip := f.ip + 2));
    CaptureLocalRecords(vm1, index);
    vm2, cell := CaptureOne(vm1, 1, index).value.0, CaptureOne(vm1, 1, index).value.1;
    CaptureTurn(vm, n, ups);
  }

  /**
   * Two descriptors naming the same local, read by one OP_CLOSURE or by
   * consecutive ones, give the same cell: the first creates or reuses the
   * cell open at the address, the second finds it in `captures`.
   */
  lemma SameLocalSharesCell(vm: VM, index: byte, n: nat)
    requires vm.frames != [] && n == 2
    requires Top(vm).ip + 4 <= |CodeOf(Top(vm)).code|
    requires CodeOf(Top(vm)).code[Top(vm).ip] == 1 && CodeOf(Top(vm)).code[Top(vm).ip + 1] == index
    requires CodeOf(Top(vm)).code[Top(vm).ip + 2] == 1 && CodeOf(Top(vm)).code[Top(vm).ip + 3] == index
    ensures var r := CaptureUpvalues(vm, n, []);
      r.Captured? && |r.upvalues| == 2 && r.upvalues[0] == r.upvalues[1] &&
      var address := Top(vm).slot + index as nat;
      address in r.vm.captures && r.vm.captures[address] == r.upvalues[0] &&
      (address in vm.captures ==> r.upvalues[0] == vm.captures[address])
  {
    var vm3, cell := LocalTurn(vm, n, [], index);
    var vm5, cell2 := LocalTurn(vm3, n - 1, [cell], index);
    assert CaptureUpvalues(vm5, n - 2, [cell, cell2]) == Captured(vm5, [cell, cell2]);
  }

  /** Every captured slot names an existing cell, and no two slots share one. */
  ghost predicate CellsWf(vm: VM)
  {
    (forall a :: a in vm.captures ==> vm.captures[a] < |vm.cells|) &&
    (forall a, b :: a in vm.captures && b in vm.captures && vm.captures[a] == vm.captures[b] ==> a == b)
  }

  lemma {:induction false} CaptureKeepsCellsWf(vm: VM, n: nat, ups: seq<nat>)
    requires vm.frames != [] && CellsWf(vm)
    ensures var r := CaptureUpvalues(vm, n, ups); r.Captured? ==> CellsWf(r.vm)
    decreases n
  {
    if n > 0 {
      match ReadPair(vm)
      case Err(_) =>
      case Ok((vm1, isLocal, index)) =>
        match CaptureOne(vm1, isLocal, index)
        case None =>
        case Some((vm2, cell)) =>
          assert CellsWf(vm2);
          CaptureKeepsCellsWf(vm2, n - 1, ups + [cell]);
    }
  }

  lemma {:induction false} CloseRangeKeepsCellsWf(vm: VM, lo: nat, hi: nat)
    requires hi <= |vm.stack| && CellsWf(vm)
    ensures CellsWf(CloseRange(vm, lo, hi))
    decreases hi
  {
    if hi > lo {
      CloseRangeKeepsCellsWf(CloseUpvalues(vm, hi - 1), lo, hi - 1);
    }
  }

  /**
   * Closing the slots `lo..hi` closes each one's cell over the value in that
   * slot, and leaves every cell no closed slot names as it was.
   */
  lemma {:induction false} CloseRangeCloses(vm: VM, lo: nat, hi: nat)
    requires hi <= |vm.stack| && CellsWf(vm)
    ensures var r := CloseRange(vm, lo, hi);
      (forall a :: lo <= a < hi && a in vm.captures ==> r.cells[vm.captures[a]] == Out(vm.stack[a])) &&
      (forall c :: 0 <= c < |vm.cells| && (forall a :: lo <= a < hi && a in vm.captures ==> vm.captures[a] != c) ==>
         r.cells[c] == vm.cells[c])
    decreases hi
  {
    if hi > lo {
      var vm' := CloseUpvalues(vm, hi - 1);
      CloseUpvaluesKeepsCellsWf(vm, hi - 1);
      CloseRangeCloses(vm', lo, hi - 1);
      var r := CloseRange(vm', lo, hi - 1);
      assert r == CloseRange(vm, lo, hi);
      forall a | lo <= a < hi && a in vm.captures
        ensures r.cells[vm.captures[a]] == Out(vm.stack[a])
      {
        if a == hi - 1 {
          assert forall b :: lo <= b < hi - 1 && b in vm'.captures ==> vm'.captures[b] != vm.captures[a];
        } else {
          assert vm'.captures[a] == vm.captures[a];
        }
      }
      forall c | 0 <= c < |vm.cells| && (forall a :: lo <= a < hi && a in vm.captures ==> vm.captures[a] != c)
        ensures r.cells[c] == vm.cells[c]
      {
        assert forall a :: lo <= a < hi - 1 && a in vm'.captures ==> vm'.captures[a] != c;
      }
    }
  }

  /** Closing one slot keeps the captures well formed. */
  lemma CloseUpvaluesKeepsCellsWf(vm: VM, slot: nat)
    requires slot < |vm.stack| && CellsWf(vm)
    ensures CellsWf(CloseUpvalues(vm, slot))
    ensures var r := CloseUpvalues(vm, slot);
      forall a :: a in r.captures ==> r.captures[a] == vm.captures[a]
  {
  }

  /** `b` has the open cells of `a` and at least its cells. */
  ghost predicate SameCaptures(a: VM, b: VM)
  {
    b.captures == a.captures && |b.cells| >= |a.cells|
  }

  ghost predicate KeepsCaptures(vm: VM, r: StepResult)
  {
    (r.Next? || r.Done?) ==> SameCaptures(vm, r.vm)
  }

  lemma ReadConstantOperandKeeps(vm: VM)
    requires vm.frames != []
    ensures var r := ReadConstantOperand(vm);
      (r.Ok? ==> SameCaptures(vm, r.value.0)) && (r.Err? ==> SameCaptures(vm, r.error))
  {
  }

  lemma ArithmeticOpsKeepCaptures(vm: VM, op: byte)
    requires vm.frames != []
    ensures op in {OpSubtract, OpMultiply, OpDivide, OpGreater, OpLess} ==> KeepsCaptures(vm, NumberOp(vm, op))
    ensures KeepsCaptures(vm, AddOp(vm))
  {
  }

  lemma LocalOpsKeepCaptures(vm: VM, op: byte)
    requires vm.frames != [] && op in {OpGetLocal, OpSetLocal}
    ensures KeepsCaptures(vm, LocalOp(vm, op))
  {
  }

  lemma JumpOpsKeepCaptures(vm: VM, op: byte)
    requires vm.frames != [] && op in {OpJumpIfFalse, OpJump, OpLoop}
    ensures KeepsCaptures(vm, JumpOp(vm, op))
  {
  }

  lemma CallOpKeepsCaptures(vm: VM)
    requires vm.frames != []
    ensures KeepsCaptures(vm, CallOp(vm))
  {
  }

  lemma GlobalOpKeepsCaptures(vm: VM, op: byte)
    requires vm.frames != []
    ensures KeepsCaptures(vm, GlobalOp(vm, op))
  {
    ReadConstantOperandKeeps(vm);
  }

  lemma PropertyOpKeepsCaptures(vm: VM, op: byte)
    requires vm.frames != []
    ensures KeepsCaptures(vm, PropertyOp(vm, op))
  {
    if op == OpGetProperty {
      match Pop(vm)
      case None =>
      case Some((vm1, _)) => ReadConstantOperandKeeps(vm1);
    } else {
      ReadConstantOperandKeeps(vm);
    }
  }

  lemma UpvalueOpKeepsCaptures(vm: VM, op: byte)
    requires vm.frames != []
    ensures KeepsCaptures(vm, UpvalueOp(vm, op))
  {
  }

  lemma ClosureOpKeepsCellsWf(vm: VM)
    requires vm.frames != [] && CellsWf(vm)
    ensures var r := ClosureOp(vm); (r.Next? || r.Done?) ==> CellsWf(r.vm)
  {
    ReadConstantOperandKeeps(vm);
    match ReadConstantOperand(vm)
    case Err(_) =>
    case Ok((vm1, c)) =>
      if c.Function? {
        CaptureKeepsCellsWf(vm1, c.fun.upvalue as nat, []);
      }
  }

  lemma ReturnOpKeepsCellsWf(vm: VM)
    requires vm.frames != [] && CellsWf(vm)
    ensures var r := ReturnOp(vm); (r.Next? || r.Done?) ==> CellsWf(r.vm)
  {
    match Pop(vm)
    case None =>
    case Some((vm1, ret)) =>
      var slot := Top(vm1).slot;
      var vm2 := vm1.(frames := vm1.frames[..|vm1.frames| - 1]);
      assert vm2.captures == vm.captures && vm2.cells == vm.cells;
      if slot <= |vm2.stack| {
        CloseRangeKeepsCellsWf(vm2, slot, |vm2.stack|);
        var vm3 := CloseRange(vm2, slot, |vm2.stack|);
        assert CellsWf(vm3);
        assert vm3.frames != [] ==> CellsWf(vm3.(stack := (if slot < |vm3.stack| then vm3.stack[..slot] else vm3.stack) + [ret]));
      }
  }

  lemma ConstantLikeOpsKeepCaptures(vm: VM, op: byte)
    requires vm.frames != []
    requires op in {OpConstant, OpNegate, OpNil, OpTrue, OpFalse, OpNot, OpEqual, OpPrint, OpPop, OpClass}
    ensures KeepsCaptures(vm, Dispatch(vm, op))
  {
    ReadConstantOperandKeeps(vm);
  }

  /** No opcode leaves `captures` naming a cell that does not exist. */
  lemma DispatchKeepsCellsWf(vm0: VM, op: byte)
    requires vm0.frames != [] && CellsWf(vm0)
    ensures Dispatch(vm0, op).Next? || Dispatch(vm0, op).Done? ==> CellsWf(Dispatch(vm0, op).vm)
  {
    if op == OpReturn {
      ReturnOpKeepsCellsWf(vm0);
    } else if op == OpClosure {
      ClosureOpKeepsCellsWf(vm0);
    } else if op in {OpConstant, OpNegate, OpNil, OpTrue, OpFalse, OpNot, OpEqual, OpPrint, OpPop, OpClass} {
      ConstantLikeOpsKeepCaptures(vm0, op);
    } else if op in {OpDefineGlobal, OpGetGlobal, OpSetGlobal} {
      GlobalOpKeepsCaptures(vm0, op);
    } else if op in {OpGetProperty, OpSetProperty} {
      PropertyOpKeepsCaptures(vm0, op);
    } else if op in {OpGetUpvalue, OpSetUpvalue} {
      UpvalueOpKeepsCaptures(vm0, op);
    } else if op == OpAdd || op in {OpSubtract, OpMultiply, OpDivide, OpGreater, OpLess} {
      ArithmeticOpsKeepCaptures(vm0, op);
    } else if op in {OpGetLocal, OpSetLocal} {
      LocalOpsKeepCaptures(vm0, op);
    } else if op in {OpJumpIfFalse, OpJump, OpLoop} {
      JumpOpsKeepCaptures(vm0, op);
    } else if op == OpCall {
      CallOpKeepsCaptures(vm0);
    }
  }

  /** No step leaves `captures` naming a cell that does not exist. */
  lemma StepKeepsCellsWf(vm: VM)
    requires CellsWf(vm)
    ensures Step(vm).Next? || Step(vm).Done? ==> CellsWf(Step(vm).vm)
  {
    if vm.frames != [] && Top(vm).ip < |CodeOf(Top(vm)).code| && |vm.stack| <= StackMax {
      var f := Top(vm);
      var vm0 := SetTop(vm, f.(ip := f.ip + 1));
      assert CellsWf(vm0);
      StepDispatches(vm);
      DispatchKeepsCellsWf(vm0, CodeOf(f).code[f.ip]);
    }
  }

  /** A step with code left to run and room on the stack dispatches the opcode under the ip, with the ip past it. */
  lemma StepDispatches(vm: VM)
    requires vm.frames != [] && Top(vm).ip < |CodeOf(Top(vm)).code| && |vm.stack| <= StackMax
    ensures Step(vm) == Dispatch(Advanced(vm, 1), CodeOf(Top(vm)).code[Top(vm).ip])
  {
  }

  /** A jump instruction's step is its `JumpOp` past the opcode byte. */
  lemma JumpStep(vm: VM, op: byte)
    requires At(vm, op) && |vm.stack| <= StackMax && op in {OpJumpIfFalse, OpJump, OpLoop}
    ensures Step(vm) == JumpOp(Advanced(vm, 1), op)
  {
    StepDispatches(vm);
    var vm0 := Advanced(vm, 1);
    if op == OpJump {
      assert Dispatch(vm0, OpJump) == JumpOp(vm0, OpJump);
    } else if op == OpLoop {
      assert Dispatch(vm0, OpLoop) == JumpOp(vm0, OpLoop);
    } else {
      assert Dispatch(vm0, OpJumpIfFalse) == JumpOp(vm0, OpJumpIfFalse);
    }
  }

  /**
   * An unconditional jump (or loop) whose operand after the opcode at
   * ip decodes to `offset`, now landing at `target`, moves the ip there.
   */
  lemma JumpMoves(vm: VM, op: byte, offset: nat, target: nat)
    requires vm.frames != [] && op in {OpJump, OpLoop}
    requires var f := Top(vm); var p := f.ip + 1;
      p + USIZE <= |CodeOf(f).code| && FromBytes(CodeOf(f).code[p..p + USIZE]) == offset
      && (if op == OpJump then target == p + USIZE + offset else offset <= p + USIZE && target == p + USIZE - offset)
    ensures JumpOp(Advanced(vm, 1), op) == Next(SetTop(vm, Top(vm).(ip := target)))
  {
    var f := Top(vm);
    var p := f.ip + 1;
    var vm0 := Advanced(vm, 1);
    assert Top(vm0) == f.(ip := p) && CodeOf(Top(vm0)) == CodeOf(f);
    var vm1 := SetTop(vm0, f.(ip := p + USIZE));
    assert ReadJump(vm0) == Some((vm1, offset));
    assert SetTop(vm1, f.(ip := target)) == SetTop(vm, f.(ip := target));
  }

  /**
   * The jump round trip.  PatchJump leaves at the operand position p the
   * bytes of `len - p - USIZE`, where len is the code length when patching;
   * executing the jump whose operand starts at p then lands exactly at len.
   */
  lemma JumpLandsAtPatchPoint(vm: VM, len: nat)
    requires At(vm, OpJump) && |vm.stack| <= StackMax
    requires var f := Top(vm); var p := f.ip + 1;
      p + USIZE <= len && len - p - USIZE < Pow256(USIZE) && p + USIZE <= |CodeOf(f).code| &&
      CodeOf(f).code[p..p + USIZE] == ToBytes(len - p - USIZE, USIZE)
    ensures Step(vm) == Next(SetTop(vm, Top(vm).(ip := len)))
  {
    var f := Top(vm);
    var p := f.ip + 1;
    JumpStep(vm, OpJump);
    var n := len - p - USIZE;
    FromToBytes(n, USIZE);
    assert FromBytes(CodeOf(f).code[p..p + USIZE]) == n;
    JumpMoves(vm, OpJump, n, len);
  }

  /**
   * The loop round trip.  EmitLoop, with the loop body starting at `start`
   * and OP_LOOP emitted at position q, writes the operand q + 1 - start +
   * USIZE; executing that OP_LOOP jumps back to `start`.
   */
  lemma LoopReturnsToStart(vm: VM, start: nat)
    requires At(vm, OpLoop) && |vm.stack| <= StackMax
    requires var f := Top(vm); var q := f.ip;
      start <= q + 1 && q + 1 - start + USIZE < Pow256(USIZE) && q + 1 + USIZE <= |CodeOf(f).code| &&
      CodeOf(f).code[q + 1..q + 1 + USIZE] == ToBytes(q + 1 - start + USIZE, USIZE)
    ensures Step(vm) == Next(SetTop(vm, Top(vm).(ip := start)))
  {
    var f := Top(vm);
    var p := f.ip + 1;
    JumpStep(vm, OpLoop);
    var n := p - start + USIZE;
    FromToBytes(n, USIZE);
    assert FromBytes(CodeOf(f).code[p..p + USIZE]) == n;
    JumpMoves(vm, OpLoop, n, start);
  }

  /** A frame whose ip ran off the end of its code is selected again and again: the run loop spins. */
  lemma EndOfCodeSpins(vm: VM, fuel: nat)
    requires vm.frames != [] && Top(vm).ip >= |CodeOf(Top(vm)).code|
    ensures RunFor(vm, fuel) == OutOfFuel(vm)
    decreases fuel
  {
    if fuel > 0 {
      EndOfCodeSpins(vm, fuel - 1);
    }
  }
}
