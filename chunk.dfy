/**
 * Bytecode chunks (src/chunk.rs): a growable code vector with a parallel
 * vector of source lines and a pool of constants, plus the disassembler.
 *
 * chunk.rs fixes the value type to f64 while the compiler and the VM store
 * LoxType constants; the chunk is therefore generic in its value type V.
 */
module Chunk {
  import opened Wrappers

  newtype byte = x: int | 0 <= x < 256

  // Opcodes.  chunk.rs gives OpReturn = 0 and OpConstant = 1; the other
  // operations the compiler and the VM use are numbered after them.
  const OpReturn: byte := 0
  const OpConstant: byte := 1
  const OpNegate: byte := 2
  const OpAdd: byte := 3
  const OpSubtract: byte := 4
  const OpMultiply: byte := 5
  const OpDivide: byte := 6
  const OpNil: byte := 7
  const OpTrue: byte := 8
  const OpFalse: byte := 9
  const OpNot: byte := 10
  const OpEqual: byte := 11
  const OpGreater: byte := 12
  const OpLess: byte := 13
  const OpPrint: byte := 14
  const OpPop: byte := 15
  const OpDefineGlobal: byte := 16
  const OpGetGlobal: byte := 17
  const OpSetGlobal: byte := 18
  const OpGetLocal: byte := 19
  const OpSetLocal: byte := 20
  const OpJumpIfFalse: byte := 21
  const OpJump: byte := 22
  const OpLoop: byte := 23
  const OpCall: byte := 24
  const OpClass: byte := 25
  const OpGetProperty: byte := 26
  const OpSetProperty: byte := 27
  const OpClosure: byte := 28
  const OpGetUpvalue: byte := 29
  const OpSetUpvalue: byte := 30
  const OpCloseUpvalue: byte := 31

  /** Width in bytes of a jump operand: a usize on a 64-bit target. */
  const USIZE: nat := 8

  function Pow256(k: nat): (r: nat)
    ensures r >= 1
  {
    if k == 0 then 1 else 256 * Pow256(k - 1)
  }

  /** The `k` low-order bytes of `n`, least significant first (usize::to_ne_bytes on a little-endian target). */
  function ToBytes(n: nat, k: nat): (bs: seq<byte>)
    ensures |bs| == k
  {
    if k == 0 then [] else [(n % 256) as byte] + ToBytes(n / 256, k - 1)
  }

  /** usize::from_ne_bytes on a little-endian target. */
  function FromBytes(bs: seq<byte>): (n: nat)
    ensures n < Pow256(|bs|)
  {
    if bs == [] then 0 else bs[0] as nat + 256 * FromBytes(bs[1..])
  }

  /** Decoding the bytes of a value that fits in `k` bytes gives the value back. */
  lemma {:induction false} FromToBytes(n: nat, k: nat)
    requires n < Pow256(k)
    ensures FromBytes(ToBytes(n, k)) == n
  {
    if k > 0 {
      var bs := ToBytes(n, k);
      assert bs[1..] == ToBytes(n / 256, k - 1);
      FromToBytes(n / 256, k - 1);
    }
  }

  /** An immutable chunk: what a compiled Function holds (a clone of the compiler's chunk). */
  datatype Code<V> = Code(code: seq<byte>, lines: seq<int>, constants: seq<V>)
  {
    ghost predicate Valid() { |code| == |lines| }
  }

  class ValueArray<V> {
    var values: seq<V>

    constructor ()
      ensures values == []
    {
      values := [];
    }

    method WriteValue(val: V)
      modifies this
      ensures values == old(values) + [val]
    {
      values := values + [val];
    }

    /** Indexing past the end panics, which the precondition excludes. */
    function GetValue(pos: nat): (v: V)
      reads this
      requires pos < |values|
      ensures v == values[pos]
    {
      values[pos]
    }
  }

  class Chunk<V> {
    var code: seq<byte>
    var lines: seq<int>
    const constants: ValueArray<V>

    /** The code and line vectors grow in lock-step. */
    ghost predicate Valid()
      reads this
    {
      |code| == |lines|
    }

    constructor ()
      ensures Valid() && fresh(constants)
      ensures code == [] && lines == [] && constants.values == []
    {
      code := [];
      lines := [];
      constants := new ValueArray();
    }

    method WriteChunk(b: byte, line: int)
      requires Valid()
      modifies this
      ensures Valid()
      ensures code == old(code) + [b] && lines == old(lines) + [line]
    {
      code := code + [b];
      lines := lines + [line];
    }

    function Len(): (n: nat)
      reads this
      ensures n == |code|
    {
      |code|
    }

    /** Appends a constant and returns its index in the pool. */
    method AddConstant(val: V) returns (pos: nat)
      modifies constants
      ensures constants.values == old(constants.values) + [val]
      ensures pos == |old(constants.values)| && constants.values[pos] == val
    {
      pos := |constants.values|;
      constants.WriteValue(val);
    }

    /** Overwrites one byte of code (used to back-patch jump operands). */
    method ModifyChunk(pos: nat, b: byte)
      requires Valid() && pos < |code|
      modifies this
      ensures Valid()
      ensures code == old(code)[pos := b] && lines == old(lines)
    {
      code := code[pos := b];
    }

    /** The immutable value a compiled function keeps. */
    function Snapshot(): (c: Code<V>)
      reads this, constants
      ensures c.code == code && c.lines == lines && c.constants == constants.values
    {
      Code(code, lines, constants.values)
    }
  }

  /** The disassembler's two panics. */
  datatype Panic =
    | UnknownCode(line: int, instruction: byte)
    | ConstantOutOfRange(offset: nat)

  /**
   * The offset of the instruction after the one at `offset`.  Only OpReturn
   * (one byte) and OpConstant (opcode and pool index) are known; any other
   * byte panics with "Unknown code", and an OpConstant whose operand or
   * constant is missing panics on the out-of-range index.
   */
  function DisassembleInstruction<V>(c: Code<V>, offset: nat): (r: Result<nat, Panic>)
    requires c.Valid() && offset < |c.code|
    ensures r.Ok? <==> (c.code[offset] == OpReturn ||
                        (c.code[offset] == OpConstant && offset + 1 < |c.code| && c.code[offset + 1] as int < |c.constants|))
    ensures r.Ok? ==> r.value == offset + (if c.code[offset] == OpReturn then 1 else 2)
    ensures r.Err? && r.error.UnknownCode? <==> c.code[offset] != OpReturn && c.code[offset] != OpConstant
    ensures r.Err? && r.error.UnknownCode? ==> r.error == UnknownCode(c.lines[offset], c.code[offset])
  {
    var instruction := c.code[offset];
    if instruction == OpReturn then Ok(offset + 1)
    else if instruction == OpConstant then
      if offset + 1 < |c.code| && c.code[offset + 1] as int < |c.constants| then Ok(offset + 2)
      else Err(ConstantOutOfRange(offset))
    else Err(UnknownCode(c.lines[offset], instruction))
  }

  /** What disassembling from `offset` to the end of the code comes to. */
  ghost function DisassembleFrom<V>(c: Code<V>, offset: nat): Result<(), Panic>
    requires c.Valid()
    decreases |c.code| - offset
  {
    if offset >= |c.code| then Ok(())
    else match DisassembleInstruction(c, offset)
      case Err(p) => Err(p)
      case Ok(next) => DisassembleFrom(c, next)
  }

  /** The disassembler's loop over the whole chunk. */
  method DisassembleChunk<V>(c: Code<V>) returns (r: Result<(), Panic>)
    requires c.Valid()
    ensures r == DisassembleFrom(c, 0)
  {
    var offset: nat := 0;
    while offset < |c.code|
      invariant DisassembleFrom(c, offset) == DisassembleFrom(c, 0)
      decreases |c.code| - offset
    {
      var step := DisassembleInstruction(c, offset);
      if step.Err? {
        return Err(step.error);
      }
      offset := step.value;
    }
    return Ok(());
  }

  /** The chunk test writing two bytes: the chunk then has length 2. */
  method TestChunkWrite() returns (n: nat)
    ensures n == 2
  {
    var chunk := new Chunk<real>();
    chunk.WriteChunk(1, 0);
    chunk.WriteChunk(2, 0);
    n := chunk.Len();
  }

  /**
   * The disassembler test: OP_RETURN, OP_CONSTANT 0, then byte 2, which is
   * no known opcode, so disassembly panics with "Unknown code" on line 1.
   */
  method TestChunkDisassemble() returns (r: Result<(), Panic>)
    ensures r == Err(UnknownCode(1, 2))
  {
    var chunk := new Chunk<real>();
    var _ := chunk.AddConstant(1.0);
    chunk.WriteChunk(0, 1);
    chunk.WriteChunk(1, 1);
    chunk.WriteChunk(0, 1);
    chunk.WriteChunk(2, 1);
    var c := chunk.Snapshot();
    assert c.code == [0, 1, 0, 2];
    assert DisassembleFrom(c, 3) == Err(UnknownCode(1, 2));
    assert DisassembleFrom(c, 1) == DisassembleFrom(c, 3);
    r := DisassembleChunk(c);
  }
}
