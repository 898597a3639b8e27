// The single-pass bytecode compiler (the `Parser` of src/compile.rs): a
// Pratt parser that reads tokens from its scanner and writes bytecode into
// the chunk of the function being compiled.  The parser is an object whose
// methods update its fields: the two tokens it looks at, the error flag,
// the chunk and scope being filled, and the stashed chunks and scopes of
// the enclosing functions.  The chunk is held as a value; `eprintln!` of an
// error is modelled by the ghost log `reported`.

module Compiler {
  import opened Wrappers
  import opened Token
  import opened Lexer
  import opened Chunk
  import opened CompileScope
  import O = Object
  import S = Scanner

  const TooManyConstants := "Too many constants"
  const SameNameInScope := "A variable with same name defined in this scope"
  const OwnInitializer := "Can't read local variable in its own identifier"
  const InvalidAssignment := "Invalid assignment statement."

  /** The token types that can start an expression: those with a prefix rule. */
  const PrefixTokens: set<TokenType> := {LeftParen, TokenType.Number, Minus, Bang, False, True, TokenType.Nil, TokenType.String, Identifier}

  /** The keywords `declaration` and `statement` try, in that order. */
  const DeclarationKeywords: set<TokenType> := {TokenType.Class, Fun, Var}
  const StatementKeywords: set<TokenType> := {Print, If, Return, While, LeftBrace}

  /** The tokens `synchronize` stops in front of: those that begin a declaration or statement. */
  const SyncPoints: set<TokenType> := {TokenType.Class, Fun, Var, For, If, While, Print, Return}

  /** The `{:?}` rendering of a token type. */
  function TypeName(t: TokenType): (r: string)
    ensures |r| > 0
  {
    match t
    case LeftParen => "LeftParen"
    case RightParen => "RightParen"
    case LeftBrace => "LeftBrace"
    case RightBrace => "RightBrace"
    case Comma => "Comma"
    case Dot => "Dot"
    case Minus => "Minus"
    case Plus => "Plus"
    case Semicolon => "Semicolon"
    case Slash => "Slash"
    case Star => "Star"
    case Bang => "Bang"
    case BangEqual => "BangEqual"
    case Equal => "Equal"
    case EqualEqual => "EqualEqual"
    case Greater => "Greater"
    case GreaterEqual => "GreaterEqual"
    case Less => "Less"
    case LessEqual => "LessEqual"
    case Identifier => "Identifier"
    case String => "String"
    case Number => "Number"
    case And => "And"
    case Class => "Class"
    case Else => "Else"
    case False => "False"
    case Fun => "Fun"
    case For => "For"
    case If => "If"
    case Nil => "Nil"
    case Or => "Or"
    case Print => "Print"
    case Return => "Return"
    case Super => "Super"
    case This => "This"
    case True => "True"
    case Var => "Var"
    case While => "While"
    case Eof => "Eof"
  }

  /** The reason `expect` gives when the current token is not the one wanted. */
  function ExpectedMessage(wanted: TokenType, got: TokenType): string
  {
    "Expected " + TypeName(wanted) + " but get " + TypeName(got)
  }

  /** `n` copies of `x`. */
  function Repeat<T>(x: T, n: nat): (r: seq<T>)
    ensures |r| == n && forall i :: 0 <= i < n ==> r[i] == x
  {
    if n == 0 then [] else Repeat(x, n - 1) + [x]
  }

  /**
   * The instructions `binary` emits for an operator.  The three negated
   * comparisons have no instruction of their own: `!=` is EQUAL then NOT,
   * `>=` is LESS then NOT and `<=` is GREATER then NOT.
   */
  function BinaryCode(t: TokenType): (r: seq<byte>)
    ensures IsBinaryOperator(t) <==> 1 <= |r|
    ensures |r| <= 2 && (|r| == 2 <==> t in {BangEqual, GreaterEqual, LessEqual})
    ensures |r| == 2 ==> r[1] == OpNot
  {
    match t
    case Plus => [OpAdd]
    case Minus => [OpSubtract]
    case Star => [OpMultiply]
    case Slash => [OpDivide]
    case BangEqual => [OpEqual, OpNot]
    case EqualEqual => [OpEqual]
    case Greater => [OpGreater]
    case GreaterEqual => [OpLess, OpNot]
    case Less => [OpLess]
    case LessEqual => [OpGreater, OpNot]
    case _ => []
  }

  /** Each negated comparison is the negation of the opposite strict comparison. */
  lemma NegatedComparisons()
    ensures BinaryCode(BangEqual) == BinaryCode(EqualEqual) + [OpNot]
    ensures BinaryCode(GreaterEqual) == BinaryCode(Less) + [OpNot]
    ensures BinaryCode(LessEqual) == BinaryCode(Greater) + [OpNot]
  {
  }

  /**
   * The loop of `end_scope`: from the newest local down, each one deeper
   * than `d` is discarded and its instruction emitted; the first one that
   * is not ends the loop.
   */
  method CloseLocals(ls: seq<Local>, d: int) returns (kept: seq<Local>, closing: seq<byte>)
    ensures var k := Trailing(ls, d);
            kept == ls[..|ls| - k] && closing == ClosingCode(ls[|ls| - k..])
  {
    kept, closing := ls, [];
    var i: nat := |ls|;
    while i > 0
      invariant i <= |ls| && kept == ls[..i]
      invariant forall j :: i <= j < |ls| ==> ls[j].depth > d
      invariant closing == ClosingCode(ls[i..])
    {
      if kept[i - 1].depth > d {
        assert ls[i - 1..][1..] == ls[i..];
        closing := closing + [Discard(kept[i - 1])];
        kept := kept[..i - 1];
        assert ls[..i][..i - 1] == ls[..i - 1];
        i := i - 1;
      } else {
        break;
      }
    }
  }

  /**
   * The body of `add_upvalues` on the stashed scopes `hs` and the current
   * scope: the local is marked captured, the function just inside its own
   * takes it as a local upvalue, and each later one takes the previous
   * one's upvalue.
   */
  method CaptureIn(hs: seq<Scope>, current: Scope, depth: nat, pos: nat) returns (hs': seq<Scope>, s: Scope, k: byte)
    requires depth < |hs| && pos < |hs[depth].locals|
    ensures (hs', s, k) == Capture(hs, current, depth, pos)
  {
    var index := Truncate(pos);
    hs' := hs[depth := MarkCaptured(hs[depth], pos)];
    if depth + 1 == |hs'| {
      s, k := AddUpvalueTo(current, index, true);
      return;
    }
    var s1, k1 := AddUpvalueTo(hs'[depth + 1], index, true);
    hs' := hs'[depth + 1 := s1];
    index := k1;
    ghost var hs1 := hs';
    var i := depth + 2;
    while i < |hs'|
      invariant depth + 2 <= i <= |hs'|
      invariant Thread(hs1, depth + 2, k1) == Thread(hs', i, index)
    {
      var t, j := AddUpvalueTo(hs'[i], index, false);
      hs' := hs'[i := t];
      index := j;
      i := i + 1;
    }
    s, k := AddUpvalueTo(current, index, false);
  }

  /** The code `while_statement` ends with: the loop back, the patched exit jump, and the POP the exit lands on. */
  lemma LoopTail(c: seq<byte>, back: seq<byte>, offset: nat, t: seq<byte>, d: seq<byte>)
    requires |back| == USIZE && |t| == USIZE && offset + USIZE <= |c|
    requires d == (c + ([OpLoop] + back))[..offset] + t + (c + ([OpLoop] + back))[offset + USIZE..] + [OpPop]
    ensures |d| == |c| + 2 + USIZE && d[offset..offset + USIZE] == t
    ensures var q := |d| - 2 - USIZE;
            q == |c| && d[q] == OpLoop && d[|d| - 1] == OpPop && d[q + 1..q + 1 + USIZE] == back
  {
    var e := c + ([OpLoop] + back);
    PatchedAt(e, offset, t);
    PatchedTail(e, offset, t, |c|);
    assert d[..|d| - 1] == e[..offset] + t + e[offset + USIZE..];
  }

  /**
   * The code after the tail of `while_statement`: OP_LOOP back to `start`,
   * the exit jump at `exitJump` patched to land past it, and a POP.
   */
  function LoopClosed(c: seq<byte>, start: nat, exitJump: nat): (d: seq<byte>)
    requires start <= |c| && exitJump + USIZE <= |c|
    ensures |d| == |c| + 2 + USIZE
  {
    var e := c + ([OpLoop] + ToBytes(|c| + 1 - start + USIZE, USIZE));
    e[..exitJump] + ToBytes(|c| + 1 - exitJump, USIZE) + e[exitJump + USIZE..] + [OpPop]
  }

  /**
   * `d` ends with OP_LOOP, whose operand is the distance from the end of
   * that operand back to `start`, and a final POP; the loop body lies
   * between `start` and the OP_LOOP.
   */
  ghost predicate LoopsBackTo(d: seq<byte>, start: nat)
  {
    var q := |d| - 2 - USIZE;
    start < q && d[q] == OpLoop && d[|d| - 1] == OpPop && d[q + 1..q + 1 + USIZE] == ToBytes(q + 1 - start + USIZE, USIZE)
  }

  /** What `LoopClosed` leaves: the exit jump's operand, OP_LOOP with its distance back, and the final POP. */
  lemma LoopClosedShape(c: seq<byte>, start: nat, exitJump: nat)
    requires start < |c| && exitJump + USIZE <= |c|
    ensures var d := LoopClosed(c, start, exitJump);
            |d| - 2 - USIZE == |c| && LoopsBackTo(d, start)
            && d[exitJump..exitJump + USIZE] == ToBytes(|c| + 1 - exitJump, USIZE)
  {
    var back := ToBytes(|c| + 1 - start + USIZE, USIZE);
    LoopTail(c, back, exitJump, ToBytes(|c| + 1 - exitJump, USIZE), LoopClosed(c, start, exitJump));
  }

  /**
   * The emitting half of the tail of `while_statement`: `emit_loop` back to
   * `start`, `patch_jump` of the exit jump, `emit_byte` of the final POP.
   */
  method LoopCode(code: seq<byte>, lines: seq<int>, start: nat, exitJump: nat, line: int) returns (code': seq<byte>, lines': seq<int>)
    requires start <= |code| && exitJump + USIZE <= |code|
    ensures code' == LoopClosed(code, start, exitJump)
    ensures lines' == lines + Repeat(line, 1 + USIZE) + [line]
  {
    var back := ToBytes(|code| + 1 - start + USIZE, USIZE);
    code', lines' := AppendBytes(code, lines, [OpLoop] + back, line);
    assert |code'| - exitJump - USIZE == |code| + 1 - exitJump;
    code' := Overwrite(code', exitJump, ToBytes(|code'| - exitJump - USIZE, USIZE));
    code', lines' := code' + [OpPop], lines' + [line];
  }

  /** Appending `bs` one byte at a time, each tagged with `line`, as repeated `emit_byte` does. */
  method AppendBytes(code: seq<byte>, lines: seq<int>, bs: seq<byte>, line: int) returns (code': seq<byte>, lines': seq<int>)
    ensures code' == code + bs && lines' == lines + Repeat(line, |bs|)
  {
    code', lines' := code, lines;
    var i := 0;
    while i < |bs|
      invariant i <= |bs|
      invariant code' == code + bs[..i] && lines' == lines + Repeat(line, i)
    {
      assert bs[..i + 1] == bs[..i] + [bs[i]];
      code', lines' := code' + [bs[i]], lines' + [line];
      i := i + 1;
    }
    assert bs[..|bs|] == bs;
  }

  /** The byte-by-byte loop of `patch_jump`: `bs` written over `code` from `offset` on. */
  method Overwrite(code: seq<byte>, offset: nat, bs: seq<byte>) returns (r: seq<byte>)
    requires offset + |bs| <= |code|
    ensures r == code[..offset] + bs + code[offset + |bs|..]
  {
    r := code;
    var i := 0;
    while i < |bs|
      invariant i <= |bs| && |r| == |code|
      invariant forall k :: 0 <= k < |r| ==> r[k] == if offset <= k < offset + i then bs[k - offset] else code[k]
    {
      r := r[offset + i := bs[i]];
      i := i + 1;
    }
    assert r == code[..offset] + bs + code[offset + |bs|..];
  }

  /** Patching a jump operand leaves the code after it alone. */
  lemma PatchedTail(c: seq<byte>, offset: nat, t: seq<byte>, q: nat)
    requires offset + |t| <= q <= |c|
    ensures (c[..offset] + t + c[offset + |t|..])[q..] == c[q..]
  {
    var p := c[..offset] + t + c[offset + |t|..];
    assert |p| == |c|;
    assert forall k :: q <= k < |c| ==> p[k] == c[k];
  }

  /** Patching a jump operand puts exactly the new operand there. */
  lemma PatchedAt(c: seq<byte>, offset: nat, t: seq<byte>)
    requires offset + |t| <= |c|
    ensures (c[..offset] + t + c[offset + |t|..])[offset..offset + |t|] == t
  {
  }

  /** `d` ends with the implicit `return nil` of `emit_return`. */
  ghost predicate ReturnsNil(d: seq<byte>)
  {
    |d| >= 2 && d[|d| - 2..] == [OpNil, OpReturn]
  }

  lemma ReturnsNilAppended(c: seq<byte>)
    ensures ReturnsNil(c + [OpNil, OpReturn])
  {
    assert (c + [OpNil, OpReturn])[|c|..] == [OpNil, OpReturn];
  }

  /** The last byte of `d`. */
  function Last(d: seq<byte>): byte
    requires |d| > 0
  {
    d[|d| - 1]
  }

  /** `d` ends with a property instruction and its operand: a read, or a write where assignment is allowed. */
  ghost predicate EndsWithPropertyAccess(d: seq<byte>, canAssign: bool)
  {
    |d| >= 2 && (d[|d| - 2] == OpGetProperty || (canAssign && d[|d| - 2] == OpSetProperty))
  }

  /** `d` ends with the definition of the global named by constant `k`. */
  ghost predicate DefinesGlobal(d: seq<byte>, k: int)
  {
    |d| >= 2 && d[|d| - 2] == OpDefineGlobal && d[|d| - 1] as int == k
  }

  lemma DefinesGlobalAppended(c: seq<byte>, k: byte)
    ensures DefinesGlobal(c + [OpDefineGlobal, k], k as int)
  {
  }

  /** The jump operand at `at` is the distance from its own end to the end of `d`. */
  ghost predicate LandsAtEnd(d: seq<byte>, at: nat)
  {
    at + USIZE <= |d| && d[at..at + USIZE] == ToBytes(|d| - (at + USIZE), USIZE)
  }

  /** The operand pairs after OP_CLOSURE: one (is_local, index) pair per upvalue, in order. */
  function UpvalueCode(ups: seq<Upvalue>): (r: seq<byte>)
    ensures |r| == 2 * |ups|
    ensures forall i :: 0 <= i < |ups| ==> r[2 * i] == (if ups[i].isLocal then 1 else 0) && r[2 * i + 1] == ups[i].index
  {
    if ups == [] then []
    else
      var last := ups[|ups| - 1];
      UpvalueCode(ups[..|ups| - 1]) + [if last.isLocal then 1 else 0, last.index]
  }

  /** The loop of `function` that lists the (is_local, index) pair of each upvalue in turn. */
  method UpvalueBytes(ups: seq<Upvalue>) returns (bs: seq<byte>)
    ensures bs == UpvalueCode(ups)
  {
    bs := [];
    var i := 0;
    while i < |ups|
      invariant i <= |ups| && bs == UpvalueCode(ups[..i])
    {
      bs := bs + [if ups[i].isLocal then 1 else 0, ups[i].index];
      assert ups[..i + 1][..i] == ups[..i];
      i := i + 1;
    }
    assert ups[..|ups|] == ups;
  }

  /**
   * The get (or, when `assign`, set) instruction `named_variable` picks: a
   * local slot if the function has a local of that name, else an upvalue if
   * an enclosing function has one, else a global.
   */
  function Access(local: Option<nat>, enclosing: Option<(nat, nat)>, assign: bool): byte
  {
    if local.Some? then (if assign then OpSetLocal else OpGetLocal)
    else if enclosing.Some? then (if assign then OpSetUpvalue else OpGetUpvalue)
    else (if assign then OpSetGlobal else OpGetGlobal)
  }

  /** The three kinds of access are told apart, and so are reading and writing. */
  lemma AccessDistinguishes(l: Option<nat>, e: Option<(nat, nat)>, a: bool, l': Option<nat>, e': Option<(nat, nat)>, a': bool)
    requires Access(l, e, a) == Access(l', e', a')
    ensures a == a' && l.Some? == l'.Some? && (l.None? ==> e.Some? == e'.Some?)
  {
  }

  /** The `add_upvalue!` macro's loop: search from the newest entry, append if absent. */
  method AddUpvalueTo(s: Scope, index: byte, isLocal: bool) returns (s': Scope, k: byte)
    ensures (s', k) == AddUpvalue(s, index, isLocal)
  {
    var u := Upvalue(index, isLocal);
    var i: nat := |s.upvalues|;
    while i > 0
      invariant i <= |s.upvalues|
      invariant FindUpvalue(s.upvalues, u, |s.upvalues|) == FindUpvalue(s.upvalues, u, i)
    {
      if s.upvalues[i - 1] == u {
        return s, Truncate(i - 1);
      }
      i := i - 1;
    }
    s' := s.(upvalues := s.upvalues + [u]);
    k := ((Truncate(|s'.upvalues|) as int + 255) % 256) as byte;
  }

  class Parser {
    var current: NewToken
    var previous: NewToken
    var hadError: bool
    const scanner: Lexer.Scanner
    var chunk: Code<O.LoxType>
    var scope: Scope
    var chunkHistory: seq<Code<O.LoxType>>
    var scopeHistory: seq<Scope>
    /** The errors printed so far, oldest first. */
    ghost var reported: seq<ParseError>

    /** The text of a token. */
    function Text(t: NewToken): string
    {
      scanner.GetString(t.start, t.length)
    }

    /** A token the scanner could have produced: a slice of the source, a string with both its quotes. */
    predicate InSource(t: NewToken)
    {
      t.start + t.length <= |scanner.source| && (t.ttype == TokenType.String ==> t.length >= 2)
    }

    ghost predicate Valid()
      reads this, scanner
    {
      scanner.Valid() && InSource(current) && InSource(previous) && (hadError <==> |reported| > 0)
    }

    /** What is left to read: every call that consumes a token makes this smaller. */
    function Measure(): nat
      reads this, scanner
      requires scanner.Valid()
    {
      2 * (scanner.length - scanner.pos) + (if current.ttype == Eof then 0 else 1)
    }

    ghost function Cursor(): (NewToken, NewToken, nat, int)
      reads this, scanner
    {
      (current, previous, scanner.pos, scanner.line)
    }

    ghost function Books(): (Code<O.LoxType>, Scope, seq<Code<O.LoxType>>, seq<Scope>)
      reads this
    {
      (chunk, scope, chunkHistory, scopeHistory)
    }

    ghost function Errors(): (bool, seq<ParseError>)
      reads this
    {
      (hadError, reported)
    }

    /**
     * What a successful parsing method keeps: the enclosing functions'
     * chunks, the scope depth, and the number and shape of the enclosing
     * functions' scopes; the code and the constants only grow.
     */
    twostate predicate Kept()
      reads this
    {
      chunkHistory == old(chunkHistory) && scope.depth == old(scope.depth)
      && |old(chunk.code)| <= |chunk.code| && |old(chunk.constants)| <= |chunk.constants|
      && Shapes(scopeHistory) == Shapes(old(scopeHistory))
    }

    /** An expression declares nothing: the locals are as they were. */
    twostate predicate KeptLocals()
      reads this
    {
      Kept() && scope.locals == old(scope.locals)
    }

    /** Only the chunk changed. */
    twostate predicate OnlyChunk()
      reads this, scanner
    {
      Cursor() == old(Cursor()) && hadError == old(hadError) && reported == old(reported) && scope == old(scope)
      && chunkHistory == old(chunkHistory) && scopeHistory == old(scopeHistory)
    }

    /** `bs` was appended to the code, each byte tagged with the line of the previous token. */
    twostate predicate Emitted(bs: seq<byte>)
      reads this, scanner
    {
      OnlyChunk() && chunk.code == old(chunk.code) + bs
      && chunk.lines == old(chunk.lines) + Repeat(previous.line, |bs|)
      && chunk.constants == old(chunk.constants)
    }

    /** The parser `compile` starts with. */
    constructor (src: string)
      requires LookaheadSafe(src)
      ensures Valid() && scanner.source == src && scanner.pos == 0 && fresh(scanner)
      ensures current == NewToken(Eof, 0, 0, -1) && previous == current && !hadError && reported == []
      ensures chunk == Code([], [], []) && scope == InitScope(NewToken(Identifier, 0, 0, 0))
      ensures chunkHistory == [] && scopeHistory == []
    {
      previous := NewToken(Eof, 0, 0, -1);
      current := NewToken(Eof, 0, 0, -1);
      hadError := false;
      reported := [];
      scanner := new Lexer.Scanner(src);
      chunk := Code([], [], []);
      scope := InitScope(NewToken(Identifier, 0, 0, 0));
      chunkHistory := [];
      scopeHistory := [];
    }

    // -------------------------------------------------------------------
    // Tokens.
    // -------------------------------------------------------------------

    /**
     * `advance`: the current token becomes the previous one and the
     * scanner's next token the current one.  On a scanning error the
     * current token stays, but the scanner has still moved on.
     */
    method Advance() returns (r: Result<(), ParseError>)
      requires Valid()
      modifies this, scanner
      ensures Valid() && Books() == old(Books()) && hadError == old(hadError) && reported == old(reported)
      ensures previous == old(current)
      ensures var sc := Scan(scanner.source, old(scanner.pos), old(scanner.line));
              scanner.pos == sc.pos && scanner.line == sc.line
              && (r.Ok? <==> sc.result.Ok?)
              && (r.Ok? ==> current == sc.result.value)
              && (r.Err? ==> r.error == sc.result.error && current == old(current))
      ensures Measure() <= old(Measure())
      ensures old(current.ttype) != Eof || r.Err? || current.ttype != Eof ==> Measure() < old(Measure())
    {
      previous := current;
      ghost var p, l := scanner.pos, scanner.line;
      var t := scanner.ScanToken();
      TokenInSource(scanner.source, p, l);
      ScanMoves(scanner.source, p, l);
      if t.Err? {
        return Err(t.error);
      }
      current := t.value;
      r := Ok(());
    }

    /** `is_match`. */
    predicate IsMatch(t: TokenType)
      reads this
    {
      current.ttype == t
    }

    /** `match_advance`: step past the current token when it has type `t`; a scanning error is dropped. */
    method MatchAdvance(t: TokenType) returns (b: bool)
      requires Valid()
      modifies this, scanner
      ensures Valid() && Books() == old(Books()) && hadError == old(hadError) && reported == old(reported)
      ensures b <==> old(current.ttype) == t
      ensures !b ==> Cursor() == old(Cursor())
      ensures b ==> previous == old(current)
      ensures Measure() <= old(Measure())
      ensures b && t != Eof ==> Measure() < old(Measure())
    {
      if !IsMatch(t) {
        return false;
      }
      var ignored := Advance();
      b := true;
    }

    /** `expect`: step past a token of type `t`, or fail naming the token found. */
    method Expect(t: TokenType) returns (r: Result<(), ParseError>)
      requires Valid()
      modifies this, scanner
      ensures Valid() && Books() == old(Books()) && hadError == old(hadError) && reported == old(reported)
      ensures r.Ok? ==> old(current.ttype) == t && previous == old(current)
      ensures old(current.ttype) != t ==>
                Cursor() == old(Cursor())
                && r == Err(ParseError(old(current.line), Text(old(current)), ExpectedMessage(t, old(current.ttype))))
      ensures Measure() <= old(Measure())
      ensures old(current.ttype) == t && t != Eof ==> Measure() < old(Measure())
    {
      if current.ttype == t {
        r := Advance();
        if r.Err? {
          return;
        }
        return Ok(());
      }
      r := Err(ParseError(current.line, Text(current), ExpectedMessage(t, current.ttype)));
    }

    // -------------------------------------------------------------------
    // Emitting code.
    // -------------------------------------------------------------------

    /** `emit_byte`. */
    method EmitByte(b: byte)
      requires Valid()
      modifies this
      ensures Valid() && Measure() == old(Measure()) && Emitted([b])
    {
      chunk := Code(chunk.code + [b], chunk.lines + [previous.line], chunk.constants);
    }

    /** `emit_bytes`. */
    method EmitBytes(b1: byte, b2: byte)
      requires Valid()
      modifies this
      ensures Valid() && Measure() == old(Measure()) && Emitted([b1, b2])
    {
      EmitByte(b1);
      EmitByte(b2);
      assert old(chunk.code) + [b1] + [b2] == old(chunk.code) + [b1, b2];
      assert Repeat(previous.line, 2) == [previous.line] + [previous.line];
    }

    /** `emit_return`: a function that falls off its end returns nil. */
    method EmitReturn()
      requires Valid()
      modifies this
      ensures Valid() && Measure() == old(Measure()) && Emitted([OpNil, OpReturn]) && ReturnsNil(chunk.code)
    {
      EmitBytes(OpNil, OpReturn);
      ReturnsNilAppended(old(chunk.code));
    }

    /** `make_constant`: the value is added to the pool even when its index no longer fits a byte. */
    method MakeConstant(v: O.LoxType) returns (r: Result<byte, ParseError>)
      requires Valid()
      modifies this
      ensures Valid() && Measure() == old(Measure()) && OnlyChunk()
      ensures chunk == old(chunk).(constants := old(chunk.constants) + [v])
      ensures r.Ok? <==> |old(chunk.constants)| < 256
      ensures r.Ok? ==> r.value as int == |old(chunk.constants)|
      ensures r.Err? ==> r.error == ParseError(previous.line, Text(previous), TooManyConstants)
    {
      chunk := chunk.(constants := chunk.constants + [v]);
      var pos := |chunk.constants| - 1;
      if pos >= 256 {
        return Err(ParseError(previous.line, Text(previous), TooManyConstants));
      }
      r := Ok(pos as byte);
    }

    /** `emit_constant`: OP_CONSTANT and the value's index in the pool. */
    method EmitConstant(v: O.LoxType) returns (r: Result<(), ParseError>)
      requires Valid()
      modifies this
      ensures Valid() && Measure() == old(Measure()) && OnlyChunk()
      ensures chunk.constants == old(chunk.constants) + [v]
      ensures r.Ok? <==> |old(chunk.constants)| < 256
      ensures r.Ok? ==> chunk.code == old(chunk.code) + [OpConstant, |old(chunk.constants)| as byte]
      ensures r.Err? ==> chunk.code == old(chunk.code) && r.error == ParseError(previous.line, Text(previous), TooManyConstants)
    {
      var pos := MakeConstant(v);
      if pos.Err? {
        return Err(pos.error);
      }
      EmitBytes(OpConstant, pos.value);
      r := Ok(());
    }

    /** `emit_byte` once for each of `bs`, in order. */
    method EmitAll(bs: seq<byte>)
      requires Valid()
      modifies this
      ensures Valid() && Measure() == old(Measure()) && Emitted(bs)
    {
      var code, lines := AppendBytes(chunk.code, chunk.lines, bs, previous.line);
      chunk := Code(code, lines, chunk.constants);
    }

    /** `emit_jump`: the instruction and a placeholder operand; the operand's position is returned. */
    method EmitJump(op: byte) returns (r: Result<nat, ParseError>)
      requires Valid()
      modifies this
      ensures Valid() && Measure() == old(Measure()) && Emitted([op] + Repeat(0xff as byte, USIZE))
      ensures r == Ok(|old(chunk.code)| + 1)
    {
      EmitAll([op] + Repeat(0xff as byte, USIZE));
      r := Ok(|chunk.code| - USIZE);
    }

    /**
     * `patch_jump`: the placeholder at `offset` becomes the distance from
     * the end of the operand to the end of the code written so far.
     */
    method PatchJump(offset: nat) returns (r: Result<(), ParseError>)
      requires Valid() && offset + USIZE <= |chunk.code|
      modifies this
      ensures Valid() && Measure() == old(Measure()) && OnlyChunk() && r.Ok?
      ensures chunk.lines == old(chunk.lines) && chunk.constants == old(chunk.constants)
      ensures chunk.code == old(chunk.code)[..offset] + ToBytes(|old(chunk.code)| - offset - USIZE, USIZE) + old(chunk.code)[offset + USIZE..]
      ensures LandsAtEnd(chunk.code, offset)
    {
      var jump := |chunk.code| - offset - USIZE;
      var code := Overwrite(chunk.code, offset, ToBytes(jump, USIZE));
      PatchedAt(chunk.code, offset, ToBytes(jump, USIZE));
      chunk := chunk.(code := code);
      r := Ok(());
    }

    // -------------------------------------------------------------------
    // Scopes and variables.
    // -------------------------------------------------------------------

    /** `begin_scope`. */
    method BeginScope()
      requires Valid()
      modifies this
      ensures Valid() && Measure() == old(Measure()) && Cursor() == old(Cursor()) && hadError == old(hadError) && reported == old(reported)
      ensures chunk == old(chunk) && chunkHistory == old(chunkHistory) && scopeHistory == old(scopeHistory)
      ensures scope == old(scope).(depth := old(scope.depth) + 1)
    {
      scope := scope.(depth := scope.depth + 1);
    }

    /**
     * `end_scope`: one level shallower, and every local deeper than that
     * is discarded, the newest first: closed into its upvalue if a closure
     * captured it, popped otherwise.
     */
    method EndScope()
      requires Valid()
      modifies this
      ensures Valid() && Measure() == old(Measure()) && Cursor() == old(Cursor()) && hadError == old(hadError) && reported == old(reported)
      ensures chunkHistory == old(chunkHistory) && scopeHistory == old(scopeHistory)
      ensures var ls := old(scope.locals);
              var k := Trailing(ls, old(scope.depth) - 1);
              scope == old(scope).(depth := old(scope.depth) - 1, locals := ls[..|ls| - k])
              && chunk == Code(old(chunk.code) + ClosingCode(ls[|ls| - k..]), old(chunk.lines) + Repeat(previous.line, k), old(chunk.constants))
    {
      var kept, closing := CloseLocals(scope.locals, scope.depth - 1);
      var lines := chunk.lines + Repeat(previous.line, |closing|);
      scope := scope.(depth := scope.depth - 1, locals := kept);
      chunk := Code(chunk.code + closing, lines, chunk.constants);
    }

    /**
     * `declare_variable`: at the top level nothing happens; inside a block
     * the name becomes a new, not yet initialized local unless the current
     * scope already has a local of that name.
     */
    method DeclareVariable() returns (r: Result<(), ParseError>)
      requires Valid()
      modifies this
      ensures Valid() && Measure() == old(Measure()) && Cursor() == old(Cursor()) && hadError == old(hadError) && reported == old(reported)
      ensures chunk == old(chunk) && chunkHistory == old(chunkHistory) && scopeHistory == old(scopeHistory)
      ensures scope.depth == old(scope.depth) && scope.upvalues == old(scope.upvalues)
      ensures old(scope.depth) == 0 ==> r.Ok? && scope == old(scope)
      ensures old(scope.depth) != 0 ==>
                if Redeclares(scanner.source, old(scope.locals), old(scope.depth), Text(previous))
                then r == Err(ParseError(previous.line, Text(previous), SameNameInScope)) && scope == old(scope)
                else r.Ok? && scope.locals == old(scope.locals) + [Local(previous, -1, false)]
    {
      if scope.depth == 0 {
        return Ok(());
      }
      var name := Text(previous);
      var i: nat := |scope.locals|;
      while i > 0
        invariant i <= |scope.locals|
        invariant Floor(scope.locals, |scope.locals|, scope.depth) == Floor(scope.locals, i, scope.depth)
        invariant forall j :: i <= j < |scope.locals| ==> NameOf(scanner.source, scope.locals[j]) != name
      {
        if scope.depth != -1 && scope.locals[i - 1].depth < scope.depth {
          break;
        }
        if Text(scope.locals[i - 1].name) == name {
          assert NameOf(scanner.source, scope.locals[i - 1]) == name;
          return Err(ParseError(previous.line, Text(previous), SameNameInScope));
        }
        i := i - 1;
      }
      r := AddLocal(previous);
    }

    /** `add_local`. */
    method AddLocal(t: NewToken) returns (r: Result<(), ParseError>)
      requires Valid()
      modifies this
      ensures Valid() && Measure() == old(Measure()) && Cursor() == old(Cursor()) && hadError == old(hadError) && reported == old(reported)
      ensures chunk == old(chunk) && chunkHistory == old(chunkHistory) && scopeHistory == old(scopeHistory)
      ensures r.Ok? && scope == old(scope).(locals := old(scope.locals) + [Local(t, -1, false)])
    {
      scope := scope.(locals := scope.locals + [Local(t, -1, false)]);
      r := Ok(());
    }

    /** `identifier_constant`: the previous token's name as a string constant. */
    method IdentifierConstant() returns (r: Result<byte, ParseError>)
      requires Valid()
      modifies this
      ensures Valid() && Measure() == old(Measure()) && OnlyChunk()
      ensures chunk == old(chunk).(constants := old(chunk.constants) + [O.String(Text(previous))])
      ensures r.Ok? <==> |old(chunk.constants)| < 256
      ensures r.Ok? ==> r.value as int == |old(chunk.constants)|
    {
      r := MakeConstant(O.String(Text(previous)));
    }

    /** `make_initialized`: the newest local gets the current depth, which makes it readable. */
    method MakeInitialized()
      requires Valid() && (scope.depth == 0 || |scope.locals| > 0)
      modifies this
      ensures Valid() && Measure() == old(Measure()) && Cursor() == old(Cursor()) && hadError == old(hadError) && reported == old(reported)
      ensures chunk == old(chunk) && chunkHistory == old(chunkHistory) && scopeHistory == old(scopeHistory)
      ensures old(scope.depth) == 0 ==> scope == old(scope)
      ensures old(scope.depth) != 0 ==>
                var n := |old(scope.locals)| - 1;
                scope == old(scope).(locals := old(scope.locals)[n := old(scope.locals)[n].(depth := old(scope.depth))])
    {
      if scope.depth == 0 {
        return;
      }
      var n := |scope.locals| - 1;
      scope := scope.(locals := scope.locals[n := scope.locals[n].(depth := scope.depth)]);
    }

    /** `define_variable`: a local is marked initialized; a global is defined by OP_DEFINE_GLOBAL. */
    method DefineVariable(id: byte) returns (r: Result<(), ParseError>)
      requires Valid() && (scope.depth > 0 ==> |scope.locals| > 0)
      modifies this
      ensures Valid() && Measure() == old(Measure()) && Cursor() == old(Cursor()) && hadError == old(hadError) && reported == old(reported)
      ensures chunkHistory == old(chunkHistory) && scopeHistory == old(scopeHistory) && r.Ok?
      ensures scope.depth == old(scope.depth) && |scope.locals| == |old(scope.locals)| && scope.upvalues == old(scope.upvalues)
      ensures old(scope.depth) > 0 ==>
                var n := |old(scope.locals)| - 1;
                chunk == old(chunk) && scope.locals == old(scope.locals)[n := old(scope.locals)[n].(depth := old(scope.depth))]
      ensures old(scope.depth) <= 0 ==> scope == old(scope) && Emitted([OpDefineGlobal, id])
    {
      if scope.depth > 0 {
        MakeInitialized();
        return Ok(());
      }
      EmitBytes(OpDefineGlobal, id);
      r := Ok(());
    }

    /** `parse_variable`: a name; inside a block it is declared as a local, at the top level it is a constant. */
    method ParseVariable() returns (r: Result<byte, ParseError>)
      requires Valid()
      modifies this, scanner
      ensures Valid() && Measure() <= old(Measure()) && hadError == old(hadError) && reported == old(reported)
      ensures chunkHistory == old(chunkHistory) && scopeHistory == old(scopeHistory) && chunk.code == old(chunk.code)
      ensures scope.depth == old(scope.depth) && scope.upvalues == old(scope.upvalues)
      ensures r.Ok? ==> Measure() < old(Measure()) && old(current.ttype) == Identifier && previous == old(current)
      ensures r.Ok? && scope.depth != 0 ==> scope.locals == old(scope.locals) + [Local(previous, -1, false)]
      ensures |old(chunk.constants)| <= |chunk.constants|
      ensures r.Ok? && scope.depth > 0 ==> r.value == 0 && chunk.constants == old(chunk.constants)
      ensures r.Ok? && scope.depth == 0 ==> scope.locals == old(scope.locals)
      ensures r.Ok? && scope.depth <= 0 ==>
                r.value as int == |old(chunk.constants)| && chunk.constants == old(chunk.constants) + [O.String(Text(previous))]
    {
      var e := Expect(Identifier);
      if e.Err? {
        return Err(e.error);
      }
      var d := DeclareVariable();
      if d.Err? {
        return Err(d.error);
      }
      if scope.depth > 0 {
        return Ok(0);
      }
      r := IdentifierConstant();
    }

    // -------------------------------------------------------------------
    // Resolving names.
    // -------------------------------------------------------------------

    /**
     * `resolve_local`: the newest local of that name in the function being
     * compiled, which must not be one whose initializer is being compiled.
     */
    method ResolveLocal() returns (r: Result<Option<byte>, ParseError>)
      ensures match LastNamed(scanner.source, scope.locals, |scope.locals|, Text(previous))
              case None => r == Ok(Option.None)
              case Some(i) =>
                r == if scope.locals[i].depth == -1
                     then Err(ParseError(previous.line, Text(previous), OwnInitializer))
                     else Ok(Some(Truncate(i)))
    {
      var name := Text(previous);
      var i: nat := |scope.locals|;
      while i > 0
        invariant i <= |scope.locals|
        invariant LastNamed(scanner.source, scope.locals, |scope.locals|, name) == LastNamed(scanner.source, scope.locals, i, name)
      {
        if Text(scope.locals[i - 1].name) == name {
          if scope.locals[i - 1].depth == -1 {
            return Err(ParseError(previous.line, Text(previous), OwnInitializer));
          }
          return Ok(Some(Truncate(i - 1)));
        }
        i := i - 1;
      }
      r := Ok(Option.None);
    }

    /** The inner search loop of `resolve_upvalue`: the newest of `ls` with that name. */
    method FindLocal(ls: seq<Local>, name: string) returns (r: Option<nat>)
      ensures r == LastNamed(scanner.source, ls, |ls|, name)
    {
      var i: nat := |ls|;
      while i > 0
        invariant i <= |ls|
        invariant LastNamed(scanner.source, ls, |ls|, name) == LastNamed(scanner.source, ls, i, name)
      {
        if Text(ls[i - 1].name) == name {
          return Some(i - 1);
        }
        i := i - 1;
      }
      r := Option.None;
    }

    /** The outer search loop of `resolve_upvalue`: the innermost enclosing function with a local of that name. */
    method FindEnclosing() returns (r: Option<(nat, nat)>)
      ensures r == Enclosing(scanner.source, scopeHistory, |scopeHistory|, Text(previous))
    {
      var name := Text(previous);
      var depth: nat := |scopeHistory|;
      while depth > 0
        invariant depth <= |scopeHistory|
        invariant Enclosing(scanner.source, scopeHistory, |scopeHistory|, name) == Enclosing(scanner.source, scopeHistory, depth, name)
      {
        var i := FindLocal(scopeHistory[depth - 1].locals, name);
        if i.Some? {
          return Some((depth - 1, i.value));
        }
        depth := depth - 1;
      }
      r := Option.None;
    }

    /**
     * `add_upvalues`: marks the local captured and threads an upvalue for
     * it through every function between its own and the current one.
     */
    method AddUpvalues(pos: nat, depth: nat) returns (r: Result<Option<byte>, ParseError>)
      requires Valid() && depth < |scopeHistory| && pos < |scopeHistory[depth].locals|
      modifies this
      ensures Valid() && Measure() == old(Measure()) && Cursor() == old(Cursor()) && hadError == old(hadError) && reported == old(reported)
      ensures chunk == old(chunk) && chunkHistory == old(chunkHistory)
      ensures var (hs, s, k) := Capture(old(scopeHistory), old(scope), depth, pos);
              scopeHistory == hs && scope == s && r == Ok(Some(k))
    {
      var hs, s, k := CaptureIn(scopeHistory, scope, depth, pos);
      scopeHistory, scope := hs, s;
      r := Ok(Some(k));
    }

    /** `resolve_upvalue`: a local of an enclosing function, captured through every function in between. */
    method ResolveUpvalue() returns (r: Result<Option<byte>, ParseError>)
      requires Valid()
      modifies this
      ensures Valid() && Measure() == old(Measure()) && Cursor() == old(Cursor()) && hadError == old(hadError) && reported == old(reported)
      ensures chunk == old(chunk) && chunkHistory == old(chunkHistory)
      ensures match Enclosing(scanner.source, old(scopeHistory), |old(scopeHistory)|, Text(previous))
              case None => r == Ok(Option.None) && scope == old(scope) && scopeHistory == old(scopeHistory)
              case Some(found) =>
                var (hs, s, k) := Capture(old(scopeHistory), old(scope), found.0, found.1);
                scopeHistory == hs && scope == s && r == Ok(Some(k))
    {
      if |scopeHistory| == 0 {
        return Ok(Option.None);
      }
      var found := FindEnclosing();
      if found.None? {
        return Ok(Option.None);
      }
      r := AddUpvalues(found.value.1, found.value.0);
    }

    // -------------------------------------------------------------------
    // Expressions.
    // -------------------------------------------------------------------

    /** `expression`: an expression at the loosest level, where assignment is allowed. */
    method Expression() returns (r: Result<(), ParseError>)
      requires Valid()
      modifies this, scanner
      ensures Valid() && Measure() <= old(Measure()) && hadError == old(hadError) && reported == old(reported)
      ensures old(current.ttype) != Eof ==> Measure() < old(Measure())
      ensures r.Ok? ==> old(current.ttype) != Eof && KeptLocals()
      ensures r.Ok? ==> GetPrecedence(current.ttype) == Prec.None && current.ttype != TokenType.Equal
      decreases Measure(), 2
    {
      r := ParsePrecedence(Assignment);
    }

    /**
     * `parse_precedence`: one prefix expression, then every infix operator
     * that binds at least as tightly as `prec`.  Only at the assignment
     * level may the expression be an assignment target, and an `=` left
     * over there is an error.
     */
    method ParsePrecedence(prec: Prec) returns (r: Result<(), ParseError>)
      requires Valid() && prec != Prec.None
      modifies this, scanner
      ensures Valid() && Measure() <= old(Measure()) && hadError == old(hadError) && reported == old(reported)
      ensures old(current.ttype) != Eof ==> Measure() < old(Measure())
      ensures r.Ok? ==> old(current.ttype) != Eof && KeptLocals()
      ensures r.Ok? ==> !AtMost(prec, GetPrecedence(current.ttype))
      ensures r.Ok? && AtMost(prec, Assignment) ==> current.ttype != TokenType.Equal
      decreases Measure(), 1
    {
      r := Advance();
      if r.Err? {
        return;
      }
      var canAssign := AtMost(prec, Assignment);
      if previous.ttype !in PrefixTokens {
        return Err(ParseError(previous.line, Text(previous), TypeName(previous.ttype) + " expect expression."));
      }
      assert old(current.ttype) != Eof;
      r := PrefixRule(canAssign);
      if r.Err? {
        return;
      }
      r := InfixLoop(prec, canAssign);
      if r.Err? {
        return;
      }
      if canAssign && IsMatch(TokenType.Equal) {
        return Err(ParseError(previous.line, Text(current), InvalidAssignment));
      }
    }

    /** The loop of `parse_precedence`: infix operators while they bind at least as tightly as `prec`. */
    method InfixLoop(prec: Prec, canAssign: bool) returns (r: Result<(), ParseError>)
      requires Valid() && prec != Prec.None
      modifies this, scanner
      ensures Valid() && Measure() <= old(Measure()) && hadError == old(hadError) && reported == old(reported)
      ensures r.Ok? ==> KeptLocals() && !AtMost(prec, GetPrecedence(current.ttype))
      decreases Measure(), 6
    {
      r := Ok(());
      while AtMost(prec, GetPrecedence(current.ttype))
        invariant Valid() && Measure() <= old(Measure()) && hadError == old(hadError) && reported == old(reported) && KeptLocals()
        decreases Measure()
      {
        r := Advance();
        if r.Err? {
          return;
        }
        r := InfixRule(canAssign);
        if r.Err? {
          return;
        }
      }
    }

    /** The prefix half of `parse_precedence`: the rule for the token just read. */
    method PrefixRule(canAssign: bool) returns (r: Result<(), ParseError>)
      requires Valid() && previous.ttype in PrefixTokens
      modifies this, scanner
      ensures Valid() && Measure() <= old(Measure()) && hadError == old(hadError) && reported == old(reported)
      ensures r.Ok? ==> KeptLocals()
      decreases Measure(), 5
    {
      var t := previous.ttype;
      if t == LeftParen {
        r := Grouping();
      } else if t == TokenType.Number {
        r := NumberLiteral();
      } else if t == Minus || t == Bang {
        r := UnaryExpression();
      } else if t == False || t == True || t == TokenType.Nil {
        r := Literal();
      } else if t == TokenType.String {
        r := StringLiteral();
      } else {
        r := Variable(canAssign);
      }
    }

    /** The infix half of `parse_precedence`: the rule for the operator just read; other tokens have none. */
    method InfixRule(canAssign: bool) returns (r: Result<(), ParseError>)
      requires Valid()
      modifies this, scanner
      ensures Valid() && Measure() <= old(Measure()) && hadError == old(hadError) && reported == old(reported)
      ensures r.Ok? ==> KeptLocals()
      decreases Measure(), 5
    {
      var op := previous.ttype;
      if IsBinaryOperator(op) {
        r := Binary();
      } else if op == TokenType.And {
        r := AndOperator();
      } else if op == TokenType.Or {
        r := OrOperator();
      } else if op == LeftParen {
        ghost var n;
        r, n := CallExpression();
      } else if op == Dot {
        r := DotExpression(canAssign);
      } else {
        r := Ok(());
      }
    }

    /** `grouping`: a parenthesised expression. */
    method Grouping() returns (r: Result<(), ParseError>)
      requires Valid()
      modifies this, scanner
      ensures Valid() && Measure() <= old(Measure()) && hadError == old(hadError) && reported == old(reported)
      ensures r.Ok? ==> KeptLocals() && previous.ttype == RightParen
      decreases Measure(), 3
    {
      r := Expression();
      if r.Err? {
        return;
      }
      r := Expect(RightParen);
    }

    /** `number`: the literal's value as a constant. */
    method NumberLiteral() returns (r: Result<(), ParseError>)
      requires Valid()
      modifies this
      ensures Valid() && Measure() == old(Measure()) && OnlyChunk()
      ensures chunk.constants == old(chunk.constants) + [O.Number(S.DecimalValue(Text(previous)))]
      ensures r.Ok? <==> |old(chunk.constants)| < 256
      ensures r.Ok? ==> chunk.code == old(chunk.code) + [OpConstant, |old(chunk.constants)| as byte]
    {
      var value := S.DecimalValue(Text(previous));
      r := EmitConstant(O.Number(value));
    }

    /** `string`: the literal without its quotes as a constant. */
    method StringLiteral() returns (r: Result<(), ParseError>)
      requires Valid() && previous.ttype == TokenType.String
      modifies this
      ensures Valid() && Measure() == old(Measure()) && OnlyChunk()
      ensures |Text(previous)| >= 2
      ensures chunk.constants == old(chunk.constants) + [O.String(Text(previous)[1..|Text(previous)| - 1])]
      ensures r.Ok? <==> |old(chunk.constants)| < 256
      ensures r.Ok? ==> chunk.code == old(chunk.code) + [OpConstant, |old(chunk.constants)| as byte]
    {
      var text := Text(previous);
      r := EmitConstant(O.String(text[1..|text| - 1]));
    }

    /**
     * `unary`: the operand, then NEGATE or NOT.  The operand is a whole
     * expression, so `-a + b` negates the sum.
     */
    method UnaryExpression() returns (r: Result<(), ParseError>)
      requires Valid()
      modifies this, scanner
      ensures Valid() && Measure() <= old(Measure()) && hadError == old(hadError) && reported == old(reported)
      ensures r.Ok? ==> KeptLocals() && old(previous.ttype) in {Minus, Bang}
      ensures r.Ok? ==> |chunk.code| > |old(chunk.code)|
                        && chunk.code[|chunk.code| - 1] == if old(previous.ttype) == Minus then OpNegate else OpNot
      decreases Measure(), 3
    {
      var op := previous.ttype;
      r := Expression();
      if r.Err? {
        return;
      }
      if op == Minus {
        EmitByte(OpNegate);
      } else if op == Bang {
        EmitByte(OpNot);
      } else {
        return Err(ParseError(previous.line, Text(previous), TypeName(previous.ttype) + " is not an unary operator."));
      }
      r := Ok(());
    }

    /** `binary`: the right operand one level tighter, then the operator's instructions. */
    method Binary() returns (r: Result<(), ParseError>)
      requires Valid()
      modifies this, scanner
      ensures Valid() && Measure() <= old(Measure()) && hadError == old(hadError) && reported == old(reported)
      ensures r.Ok? ==> KeptLocals() && IsBinaryOperator(old(previous.ttype))
      ensures r.Ok? ==> var bs := BinaryCode(old(previous.ttype));
                        |old(chunk.code)| + |bs| <= |chunk.code| && chunk.code[|chunk.code| - |bs|..] == bs
      decreases Measure(), 3
    {
      var op := previous.ttype;
      var prec := GetPrecedence(op);
      r := ParsePrecedence(Next(prec));
      if r.Err? {
        return;
      }
      r := EmitOperator(op);
    }

    /** The `match` of `binary`: the instructions of operator `op`, or an error for a token that is none. */
    method EmitOperator(op: TokenType) returns (r: Result<(), ParseError>)
      requires Valid()
      modifies this
      ensures Valid() && Measure() == old(Measure())
      ensures r.Ok? <==> IsBinaryOperator(op)
      ensures r.Ok? ==> Emitted(BinaryCode(op))
      ensures r.Err? ==> chunk == old(chunk) && OnlyChunk()
                         && r.error == ParseError(previous.line, Text(previous), TypeName(previous.ttype) + " is not a binary operator.")
    {
      var bs: seq<byte>;
      match op {
      case Plus => bs := [OpAdd];
      case Minus => bs := [OpSubtract];
      case Star => bs := [OpMultiply];
      case Slash => bs := [OpDivide];
      case BangEqual => bs := [OpEqual, OpNot];
      case EqualEqual => bs := [OpEqual];
      case Greater => bs := [OpGreater];
      case GreaterEqual => bs := [OpLess, OpNot];
      case Less => bs := [OpLess];
      case LessEqual => bs := [OpGreater, OpNot];
      case _ => return Err(ParseError(previous.line, Text(previous), TypeName(previous.ttype) + " is not a binary operator."));
      }
      EmitAll(bs);
      r := Ok(());
    }

    /** `literal`: `false`, `nil` and `true` have instructions of their own. */
    method Literal() returns (r: Result<(), ParseError>)
      requires Valid()
      modifies this
      ensures Valid() && Measure() == old(Measure())
      ensures r.Ok? <==> previous.ttype in {False, TokenType.Nil, True}
      ensures r.Ok? ==> Emitted([if previous.ttype == False then OpFalse else if previous.ttype == TokenType.Nil then OpNil else OpTrue])
      ensures r.Err? ==> chunk == old(chunk) && OnlyChunk()
                         && r.error == ParseError(previous.line, Text(previous), TypeName(previous.ttype) + " expect expression.")
    {
      if previous.ttype == False {
        EmitByte(OpFalse);
      } else if previous.ttype == TokenType.Nil {
        EmitByte(OpNil);
      } else if previous.ttype == True {
        EmitByte(OpTrue);
      } else {
        return Err(ParseError(previous.line, Text(previous), TypeName(previous.ttype) + " expect expression."));
      }
      r := Ok(());
    }

    /** `variable`. */
    method Variable(canAssign: bool) returns (r: Result<(), ParseError>)
      requires Valid()
      modifies this, scanner
      ensures Valid() && Measure() <= old(Measure()) && hadError == old(hadError) && reported == old(reported)
      ensures r.Ok? ==> KeptLocals()
      ensures r.Ok? ==> |old(chunk.code)| + 2 <= |chunk.code|
                        && chunk.code[|chunk.code| - 2] == Access(LastNamed(scanner.source, old(scope.locals), |old(scope.locals)|, Text(old(previous))),
                                                                Enclosing(scanner.source, old(scopeHistory), |old(scopeHistory)|, Text(old(previous))),
                                                                canAssign && old(current.ttype) == TokenType.Equal)
      decreases Measure(), 4
    {
      r := NamedVariable(canAssign);
    }

    /**
     * The first half of `named_variable`: the get and set instructions for
     * the name and their operand, a local slot, an upvalue index or the
     * index of the name's string constant.
     */
    method VariableSlot() returns (r: Result<(byte, byte, byte), ParseError>)
      requires Valid()
      modifies this
      ensures Valid() && Measure() == old(Measure()) && Cursor() == old(Cursor())
      ensures hadError == old(hadError) && reported == old(reported)
      ensures chunkHistory == old(chunkHistory) && chunk.code == old(chunk.code) && old(chunk.constants) <= chunk.constants
      ensures scope.locals == old(scope.locals) && scope.depth == old(scope.depth) && Shapes(scopeHistory) == Shapes(old(scopeHistory))
      ensures r.Ok? ==>
                var local := LastNamed(scanner.source, old(scope.locals), |old(scope.locals)|, Text(previous));
                var enclosing := Enclosing(scanner.source, old(scopeHistory), |old(scopeHistory)|, Text(previous));
                r.value.0 == Access(local, enclosing, false) && r.value.1 == Access(local, enclosing, true)
    {
      var arg := ResolveLocal();
      if arg.Err? {
        return Err(arg.error);
      }
      var getOp, setOp := OpGetLocal, OpSetLocal;
      if arg.value.None? {
        arg := ResolveUpvalue();
        if arg.Err? {
          return Err(arg.error);
        }
        if arg.value.Some? {
          getOp, setOp := OpGetUpvalue, OpSetUpvalue;
        } else {
          getOp, setOp := OpGetGlobal, OpSetGlobal;
        }
      }
      if arg.value.Some? {
        return Ok((getOp, setOp, arg.value.value));
      }
      var c := IdentifierConstant();
      if c.Err? {
        return Err(c.error);
      }
      r := Ok((getOp, setOp, c.value));
    }

    /**
     * `named_variable`: a read of the name, or, when assignment is allowed
     * and `=` follows, the value and a write to it, as a local, an upvalue
     * or a global.
     */
    method NamedVariable(canAssign: bool) returns (r: Result<(), ParseError>)
      requires Valid()
      modifies this, scanner
      ensures Valid() && Measure() <= old(Measure()) && hadError == old(hadError) && reported == old(reported)
      ensures r.Ok? ==> KeptLocals()
      ensures r.Ok? ==> |old(chunk.code)| + 2 <= |chunk.code|
                        && chunk.code[|chunk.code| - 2] == Access(LastNamed(scanner.source, old(scope.locals), |old(scope.locals)|, Text(old(previous))),
                                                                Enclosing(scanner.source, old(scopeHistory), |old(scopeHistory)|, Text(old(previous))),
                                                                canAssign && old(current.ttype) == TokenType.Equal)
      decreases Measure(), 3
    {
      var slot := VariableSlot();
      if slot.Err? {
        return Err(slot.error);
      }
      var (getOp, setOp, pos) := slot.value;
      if canAssign && IsMatch(TokenType.Equal) {
        var b := MatchAdvance(TokenType.Equal);
        r := Expression();
        if r.Err? {
          return;
        }
        EmitBytes(setOp, pos);
      } else {
        EmitBytes(getOp, pos);
      }
      r := Ok(());
    }

    /** `dot`: a property read, or a property write when assignment is allowed and `=` follows. */
    method DotExpression(canAssign: bool) returns (r: Result<(), ParseError>)
      requires Valid()
      modifies this, scanner
      ensures Valid() && Measure() <= old(Measure()) && hadError == old(hadError) && reported == old(reported)
      ensures r.Ok? ==> KeptLocals() && old(current.ttype) == Identifier
      ensures r.Ok? ==> |old(chunk.code)| + 2 <= |chunk.code| && EndsWithPropertyAccess(chunk.code, canAssign)
      decreases Measure(), 3
    {
      r := Expect(Identifier);
      if r.Err? {
        return;
      }
      assert old(current.ttype) == Identifier;
      var pos := IdentifierConstant();
      if pos.Err? {
        return Err(pos.error);
      }
      assert KeptLocals() && chunk.code == old(chunk.code);
      r := Property(canAssign, pos.value);
    }

    /** The rest of `dot`: with `=` (where allowed) the value and OP_SET_PROPERTY, else OP_GET_PROPERTY, naming constant `k`. */
    method Property(canAssign: bool, k: byte) returns (r: Result<(), ParseError>)
      requires Valid()
      modifies this, scanner
      ensures Valid() && Measure() <= old(Measure()) && hadError == old(hadError) && reported == old(reported)
      ensures r.Ok? ==> KeptLocals() && |old(chunk.code)| + 2 <= |chunk.code| && EndsWithPropertyAccess(chunk.code, canAssign) && Last(chunk.code) == k
      ensures r.Ok? && !canAssign ==> Emitted([OpGetProperty, k])
      decreases Measure(), 3
    {
      var assign := false;
      if canAssign {
        assign := MatchAdvance(TokenType.Equal);
      }
      if assign {
        r := Expression();
        if r.Err? {
          return;
        }
        EmitBytes(OpSetProperty, k);
      } else {
        EmitBytes(OpGetProperty, k);
      }
      r := Ok(());
    }

    /**
     * `call`: the arguments, then OP_CALL with their count.  The ghost `n`
     * is the number of arguments compiled.
     */
    method CallExpression() returns (r: Result<(), ParseError>, ghost n: nat)
      requires Valid()
      modifies this, scanner
      ensures Valid() && Measure() <= old(Measure()) && hadError == old(hadError) && reported == old(reported)
      ensures r.Ok? ==> KeptLocals() && previous.ttype == RightParen
      ensures r.Ok? ==> |old(chunk.code)| + 2 <= |chunk.code| && chunk.code[|chunk.code| - 2] == OpCall
      ensures r.Ok? ==> chunk.code[|chunk.code| - 1] == Truncate(n) && (n == 0 <==> old(current.ttype) == RightParen)
      decreases Measure(), 4
    {
      var cnt;
      cnt, n := ArgList();
      if cnt.Err? {
        return Err(cnt.error), n;
      }
      EmitBytes(OpCall, cnt.value);
      r := Ok(());
    }

    /**
     * `arg_list`: comma-separated arguments up to `)`, counted in a `u8`
     * that wraps.  The ghost `n` is the number of arguments compiled.
     */
    method ArgList() returns (r: Result<byte, ParseError>, ghost n: nat)
      requires Valid()
      modifies this, scanner
      ensures Valid() && Measure() <= old(Measure()) && hadError == old(hadError) && reported == old(reported)
      ensures r.Ok? ==> KeptLocals() && previous.ttype == RightParen
      ensures r.Ok? && old(current.ttype) == RightParen ==> r.value == 0 && chunk == old(chunk)
      ensures r.Ok? ==> r.value == Truncate(n) && (n == 0 <==> old(current.ttype) == RightParen)
      decreases Measure(), 3
    {
      var cnt: byte := 0;
      n := 0;
      if !IsMatch(RightParen) {
        while true
          invariant Valid() && Measure() <= old(Measure()) && hadError == old(hadError) && reported == old(reported) && KeptLocals()
          invariant cnt == Truncate(n)
          decreases Measure()
        {
          var e := Expression();
          if e.Err? {
            return Err(e.error), n;
          }
          TruncateNext(n);
          cnt := Truncate(cnt as int + 1);
          n := n + 1;
          var more := MatchAdvance(Comma);
          if !more {
            break;
          }
        }
      }
      var e := Expect(RightParen);
      if e.Err? {
        return Err(e.error), n;
      }
      r := Ok(cnt);
    }

    /**
     * `and`: if the left operand is false it is the result; otherwise it is
     * popped and the right operand is the result.  The jump lands just past
     * the right operand.
     */
    method AndOperator() returns (r: Result<(), ParseError>)
      requires Valid()
      modifies this, scanner
      ensures Valid() && Measure() <= old(Measure()) && hadError == old(hadError) && reported == old(reported)
      ensures r.Ok? ==> KeptLocals()
      ensures r.Ok? ==> |old(chunk.code)| + 2 + USIZE <= |chunk.code| && LandsAtEnd(chunk.code, |old(chunk.code)| + 1)
      decreases Measure(), 3
    {
      var endJump := EmitJump(OpJumpIfFalse);
      EmitByte(OpPop);
      r := ParsePrecedence(Prec.And);
      if r.Err? {
        return;
      }
      r := PatchJump(endJump.value);
    }

    /**
     * `or`: if the left operand is true it is the result; otherwise it is
     * popped and the right operand is the result.  The first jump skips the
     * second, which skips the right operand.
     */
    method OrOperator() returns (r: Result<(), ParseError>)
      requires Valid()
      modifies this, scanner
      ensures Valid() && Measure() <= old(Measure()) && hadError == old(hadError) && reported == old(reported)
      ensures r.Ok? ==> KeptLocals()
      ensures r.Ok? ==> |old(chunk.code)| + 3 + 2 * USIZE <= |chunk.code| && LandsAtEnd(chunk.code, |old(chunk.code)| + 2 + USIZE)
      decreases Measure(), 3
    {
      var endJump := OrJumps();
      r := ParsePrecedence(Prec.Or);
      if r.Err? {
        return;
      }
      r := PatchJump(endJump.value);
    }

    /**
     * The jumps `or` emits before its right operand: a conditional jump
     * over the unconditional one, landing on the POP of the left operand.
     * The unconditional jump's operand is left to be patched.
     */
    method OrJumps() returns (endJump: Result<nat, ParseError>)
      requires Valid()
      modifies this
      ensures Valid() && Measure() == old(Measure()) && OnlyChunk() && chunk.constants == old(chunk.constants)
      ensures var c := |old(chunk.code)|;
              |chunk.code| == c + 3 + 2 * USIZE && endJump == Ok(c + 2 + USIZE)
              && chunk.code[..c] == old(chunk.code) && chunk.code[c] == OpJumpIfFalse
              && chunk.code[c + 1..c + 1 + USIZE] == ToBytes(1 + USIZE, USIZE)
              && chunk.code[c + 1 + USIZE] == OpJump && chunk.code[c + 2 + 2 * USIZE] == OpPop
    {
      var elseJump := EmitJump(OpJumpIfFalse);
      endJump := EmitJump(OpJump);
      ghost var c2 := chunk.code;
      var r := PatchJump(elseJump.value);
      PatchedAt(c2, elseJump.value, ToBytes(|c2| - elseJump.value - USIZE, USIZE));
      EmitByte(OpPop);
    }

    // -------------------------------------------------------------------
    // Statements and declarations.
    // -------------------------------------------------------------------

    /** `declaration`: a class, function or variable declaration, or a statement. */
    method Declaration() returns (r: Result<(), ParseError>)
      requires Valid()
      modifies this, scanner
      ensures Valid() && Measure() <= old(Measure()) && hadError == old(hadError) && reported == old(reported)
      ensures old(current.ttype) != Eof ==> Measure() < old(Measure())
      ensures r.Ok? ==> Kept()
      decreases Measure(), 7
    {
      // `match_advance` leaves everything as it was when the token does not match,
      // so the chain of them steps over the first keyword that matches.
      var t := current.ttype;
      if t in DeclarationKeywords {
        var b := MatchAdvance(t);
        r := KeywordDeclaration(t);
      } else {
        r := Statement();
      }
    }

    /** The declaration introduced by keyword `t`, which has just been read. */
    method KeywordDeclaration(t: TokenType) returns (r: Result<(), ParseError>)
      requires Valid() && t in DeclarationKeywords
      modifies this, scanner
      ensures Valid() && Measure() <= old(Measure()) && hadError == old(hadError) && reported == old(reported)
      ensures r.Ok? ==> Kept()
      decreases Measure(), 11
    {
      match t
      case Class => r := ClassDeclaration();
      case Fun => r := FunDeclaration();
      case Var => r := VarDeclaration();
    }

    /** `class_declaration`: a named class with an empty body. */
    method ClassDeclaration() returns (r: Result<(), ParseError>)
      requires Valid()
      modifies this, scanner
      ensures Valid() && Measure() <= old(Measure()) && hadError == old(hadError) && reported == old(reported)
      ensures r.Ok? ==> Kept() && previous.ttype == RightBrace
    {
      r := Expect(Identifier);
      if r.Err? {
        return;
      }
      var constant := IdentifierConstant();
      if constant.Err? {
        return Err(constant.error);
      }
      r := DeclareVariable();
      if r.Err? {
        return;
      }
      EmitBytes(OpClass, constant.value);
      r := DefineVariable(constant.value);
      r := Expect(LeftBrace);
      if r.Err? {
        return;
      }
      r := Expect(RightBrace);
    }

    /** `fun_declaration`: the name is initialized before the body, so the function can call itself. */
    method FunDeclaration() returns (r: Result<(), ParseError>)
      requires Valid()
      modifies this, scanner
      ensures Valid() && Measure() <= old(Measure()) && hadError == old(hadError) && reported == old(reported)
      ensures r.Ok? ==> Kept()
      decreases Measure(), 10
    {
      var global := ParseVariable();
      if global.Err? {
        return Err(global.error);
      }
      MakeInitialized();
      r := CompileFunction();
      if r.Err? {
        return;
      }
      r := DefineVariable(global.value);
    }

    /** The OP_CLOSURE operands: one (is_local, index) pair per upvalue. */
    method EmitUpvalues(ups: seq<Upvalue>)
      requires Valid()
      modifies this
      ensures Valid() && Measure() == old(Measure()) && Emitted(UpvalueCode(ups))
    {
      var bs := UpvalueBytes(ups);
      EmitAll(bs);
    }

    /**
     * `function`: the parameters and body are compiled into a fresh chunk
     * and scope while the enclosing ones wait on the history stacks; the
     * finished function becomes a constant of the enclosing chunk, loaded
     * by OP_CLOSURE followed by its upvalues.  The arity is a `u8` that
     * wraps.
     */
    method CompileFunction() returns (r: Result<(), ParseError>)
      requires Valid()
      modifies this, scanner
      ensures Valid() && Measure() <= old(Measure()) && hadError == old(hadError) && reported == old(reported)
      ensures r.Ok? ==> Kept() && |scope.locals| == |old(scope.locals)|
      ensures r.Ok? ==> var c := |old(chunk.code)|;
                        var k := |old(chunk.constants)|;
                        c + 2 <= |chunk.code| && k < |chunk.constants|
                        && chunk.code[c] == OpClosure && chunk.code[c + 1] as int == k
                        && chunk.constants[k].Function? && chunk.constants[k].fun.name == Text(old(previous))
      decreases Measure(), 9
    {
      ghost var outerChunks, outerScopes := chunkHistory + [chunk], scopeHistory + [scope];
      var name := Text(previous);
      EnterFunction();
      r := Expect(LeftParen);
      if r.Err? {
        return;
      }
      var arity;
      arity, r := Parameters();
      if r.Err? {
        return;
      }
      r := FunctionBody();
      if r.Err? {
        return;
      }
      ShapesPop(scopeHistory, outerScopes);
      assert outerScopes[..|outerScopes| - 1] == old(scopeHistory) && outerChunks[..|outerChunks| - 1] == old(chunkHistory);
      var compiled := O.ObjFunction(arity, Truncate(|scope.upvalues|), chunk, name);
      var inner := LeaveFunction();
      r := EmitClosure(compiled, inner.upvalues);
    }

    /**
     * The start of `function`: the enclosing chunk and scope go on the
     * history stacks, and fresh ones take their place, the scope already
     * one block deep for the parameters.
     */
    method EnterFunction()
      requires Valid()
      modifies this
      ensures Valid() && Measure() == old(Measure()) && Cursor() == old(Cursor()) && hadError == old(hadError) && reported == old(reported)
      ensures chunkHistory == old(chunkHistory) + [old(chunk)] && scopeHistory == old(scopeHistory) + [old(scope)]
      ensures chunk == Code([], [], []) && scope == InitScope(previous).(depth := 1)
    {
      var outerChunk := chunk;
      chunk := Code([], [], []);
      var outerScope := scope;
      scope := InitScope(previous);
      chunkHistory := chunkHistory + [outerChunk];
      scopeHistory := scopeHistory + [outerScope];
      BeginScope();
    }

    /** The end of `function`: the enclosing chunk and scope come back off the history stacks; the finished scope is returned. */
    method LeaveFunction() returns (inner: Scope)
      requires Valid() && |chunkHistory| > 0 && |scopeHistory| > 0
      modifies this
      ensures Valid() && Measure() == old(Measure()) && Cursor() == old(Cursor()) && hadError == old(hadError) && reported == old(reported)
      ensures inner == old(scope)
      ensures chunk == old(chunkHistory)[|old(chunkHistory)| - 1] && chunkHistory == old(chunkHistory)[..|old(chunkHistory)| - 1]
      ensures scope == old(scopeHistory)[|old(scopeHistory)| - 1] && scopeHistory == old(scopeHistory)[..|old(scopeHistory)| - 1]
    {
      inner := scope;
      scope := InitScope(previous);
      chunk := chunkHistory[|chunkHistory| - 1];
      chunkHistory := chunkHistory[..|chunkHistory| - 1];
      scope := scopeHistory[|scopeHistory| - 1];
      scopeHistory := scopeHistory[..|scopeHistory| - 1];
    }

    /**
     * The finished function becomes a constant of the enclosing chunk,
     * loaded by OP_CLOSURE and followed by one (is-local, index) pair per
     * upvalue; a constant index that no longer fits a byte is an error.
     */
    method EmitClosure(f: O.ObjFunction, ups: seq<Upvalue>) returns (r: Result<(), ParseError>)
      requires Valid()
      modifies this
      ensures Valid() && Measure() == old(Measure()) && OnlyChunk()
      ensures |old(chunk.code)| <= |chunk.code| && chunk.constants == old(chunk.constants) + [O.Function(f)]
      ensures r.Ok? <==> |old(chunk.constants)| < 256
      ensures r.Ok? ==> chunk.code == old(chunk.code) + [OpClosure, |old(chunk.constants)| as byte] + UpvalueCode(ups)
    {
      var pos := MakeConstant(O.Function(f));
      if pos.Err? {
        return Err(pos.error);
      }
      EmitBytes(OpClosure, pos.value);
      EmitUpvalues(ups);
      r := Ok(());
    }

    /**
     * The parameter list of `function`: each name becomes an initialized
     * local of the function's outermost scope, and the count wraps as the
     * `u8` arity does.  Parameters emit no code.
     */
    method Parameters() returns (arity: byte, r: Result<(), ParseError>)
      requires Valid() && scope.depth > 0
      modifies this, scanner
      ensures Valid() && Measure() <= old(Measure()) && hadError == old(hadError) && reported == old(reported)
      ensures chunkHistory == old(chunkHistory) && scopeHistory == old(scopeHistory) && scope.depth == old(scope.depth)
      ensures r.Ok? ==> chunk.code == old(chunk.code) && chunk.constants == old(chunk.constants) && |old(scope.locals)| <= |scope.locals|
      ensures r.Ok? ==> arity == Truncate(|scope.locals| - |old(scope.locals)|)
      ensures r.Ok? ==> forall i :: |old(scope.locals)| <= i < |scope.locals| ==> scope.locals[i].depth == scope.depth
    {
      arity, r := 0, Ok(());
      if IsMatch(RightParen) {
        return;
      }
      ghost var n := 0;
      while true
        invariant Valid() && Measure() <= old(Measure()) && hadError == old(hadError) && reported == old(reported)
        invariant chunkHistory == old(chunkHistory) && scopeHistory == old(scopeHistory) && scope.depth == old(scope.depth)
        invariant chunk.code == old(chunk.code) && chunk.constants == old(chunk.constants)
        invariant |scope.locals| == |old(scope.locals)| + n && arity == Truncate(n)
        invariant forall i :: |old(scope.locals)| <= i < |scope.locals| ==> scope.locals[i].depth == scope.depth
        decreases Measure()
      {
        TruncateNext(n);
        arity, n := Truncate(arity as int + 1), n + 1;
        r := Parameter();
        if r.Err? {
          return;
        }
        var more := MatchAdvance(Comma);
        if !more {
          break;
        }
      }
    }

    /** One parameter: declared as a local of the function's scope, and at once initialized. */
    method Parameter() returns (r: Result<(), ParseError>)
      requires Valid() && scope.depth > 0
      modifies this, scanner
      ensures Valid() && Measure() <= old(Measure()) && hadError == old(hadError) && reported == old(reported)
      ensures chunkHistory == old(chunkHistory) && scopeHistory == old(scopeHistory) && scope.depth == old(scope.depth)
      ensures r.Ok? ==> Measure() < old(Measure()) && chunk.code == old(chunk.code) && chunk.constants == old(chunk.constants)
      ensures r.Ok? ==> scope.locals == old(scope.locals) + [Local(old(current), scope.depth, false)]
    {
      var constant := ParseVariable();
      if constant.Err? {
        return Err(constant.error);
      }
      ghost var ls := scope.locals;
      r := DefineVariable(constant.value);
      assert ls[|ls| - 1 := ls[|ls| - 1].(depth := scope.depth)] == old(scope.locals) + [Local(old(current), scope.depth, false)];
    }

    /** The rest of `function`: the body block, and the implicit `return nil`. */
    method FunctionBody() returns (r: Result<(), ParseError>)
      requires Valid()
      modifies this, scanner
      ensures Valid() && Measure() <= old(Measure()) && hadError == old(hadError) && reported == old(reported)
      ensures r.Ok? ==> Kept() && ReturnsNil(chunk.code)
      decreases Measure(), 9
    {
      r := Expect(RightParen);
      if r.Err? {
        return;
      }
      r := Expect(LeftBrace);
      if r.Err? {
        return;
      }
      r := Block();
      if r.Err? {
        return;
      }
      EmitReturn();
    }

    /** `var_declaration`: the initializer, or nil, then the definition. */
    method VarDeclaration() returns (r: Result<(), ParseError>)
      requires Valid()
      modifies this, scanner
      ensures Valid() && Measure() <= old(Measure()) && hadError == old(hadError) && reported == old(reported)
      ensures r.Ok? ==> Kept() && old(current.ttype) == Identifier && previous.ttype == Semicolon
      ensures r.Ok? && old(scope.depth) > 0 ==> scope.locals == old(scope.locals) + [Local(old(current), old(scope.depth), false)]
      ensures r.Ok? && old(scope.depth) == 0 ==>
                var k := |old(chunk.constants)|;
                scope.locals == old(scope.locals) && k < |chunk.constants|
                && |old(chunk.code)| + 2 <= |chunk.code| && DefinesGlobal(chunk.code, k)
      decreases Measure(), 3
    {
      var global := ParseVariable();
      if global.Err? {
        return Err(global.error);
      }
      r := Initializer();
      if r.Err? {
        return;
      }
      r := Expect(Semicolon);
      if r.Err? {
        return;
      }
      ghost var before := chunk.code;
      r := DefineVariable(global.value);
      DefinesGlobalAppended(before, global.value);
    }

    /** The value of `var_declaration`: `= expression`, or nil when there is no initializer. */
    method Initializer() returns (r: Result<(), ParseError>)
      requires Valid()
      modifies this, scanner
      ensures Valid() && Measure() <= old(Measure()) && hadError == old(hadError) && reported == old(reported)
      ensures r.Ok? ==> KeptLocals()
      decreases Measure(), 3
    {
      var eq := MatchAdvance(TokenType.Equal);
      if eq {
        r := Expression();
      } else {
        EmitByte(OpNil);
        r := Ok(());
      }
    }

    /** `statement`. */
    method Statement() returns (r: Result<(), ParseError>)
      requires Valid()
      modifies this, scanner
      ensures Valid() && Measure() <= old(Measure()) && hadError == old(hadError) && reported == old(reported)
      ensures old(current.ttype) != Eof ==> Measure() < old(Measure())
      ensures r.Ok? ==> Kept()
      decreases Measure(), 5
    {
      // `match_advance` leaves everything as it was when the token does not match,
      // so the chain of them steps over the first keyword that matches.
      var t := current.ttype;
      if t in StatementKeywords {
        var b := MatchAdvance(t);
        r := KeywordStatement(t);
      } else {
        r := ExpressionStatement();
      }
    }

    /** The statement introduced by keyword `t`, which has just been read. */
    method KeywordStatement(t: TokenType) returns (r: Result<(), ParseError>)
      requires Valid() && t in StatementKeywords
      modifies this, scanner
      ensures Valid() && Measure() <= old(Measure()) && hadError == old(hadError) && reported == old(reported)
      ensures r.Ok? ==> Kept()
      decreases Measure(), 10
    {
      match t
      case Print => r := PrintStatement();
      case If => r := IfStatement();
      case Return => r := ReturnStatement();
      case While => r := WhileStatement();
      case LeftBrace => r := ScopedBlock();
    }

    /** A block statement: its declarations live in a scope of their own, closed at the brace. */
    method ScopedBlock() returns (r: Result<(), ParseError>)
      requires Valid()
      modifies this, scanner
      ensures Valid() && Measure() <= old(Measure()) && hadError == old(hadError) && reported == old(reported)
      ensures r.Ok? ==> Kept()
      decreases Measure(), 9
    {
      BeginScope();
      r := Block();
      if r.Err? {
        return;
      }
      EndScope();
    }

    /** `return_statement`: a bare `return;` returns nil. */
    method ReturnStatement() returns (r: Result<(), ParseError>)
      requires Valid()
      modifies this, scanner
      ensures Valid() && Measure() <= old(Measure()) && hadError == old(hadError) && reported == old(reported)
      ensures r.Ok? ==> KeptLocals() && previous.ttype == Semicolon
      ensures r.Ok? ==> |old(chunk.code)| < |chunk.code| && chunk.code[|chunk.code| - 1] == OpReturn
      ensures r.Ok? && old(current.ttype) == Semicolon ==> chunk.code == old(chunk.code) + [OpNil, OpReturn]
      decreases Measure(), 3
    {
      var b := MatchAdvance(Semicolon);
      if b {
        EmitReturn();
        return Ok(());
      }
      r := Expression();
      if r.Err? {
        return;
      }
      r := Expect(Semicolon);
      if r.Err? {
        return;
      }
      EmitByte(OpReturn);
      r := Ok(());
    }

    /**
     * `if_statement`: the condition, a conditional jump over the then
     * branch, and with an `else` an unconditional jump over the else branch.
     * Without an `else` the condition is popped only on the then path.
     */
    method IfStatement() returns (r: Result<(), ParseError>)
      requires Valid()
      modifies this, scanner
      ensures Valid() && Measure() <= old(Measure()) && hadError == old(hadError) && reported == old(reported)
      ensures r.Ok? ==> Kept()
      decreases Measure(), 6
    {
      r := Condition();
      if r.Err? {
        return;
      }
      var thenJump := SkipIfFalse();
      r := Statement();
      if r.Err? {
        return;
      }
      var hasElse := MatchAdvance(Else);
      if hasElse {
        var elseJump := EmitJump(OpJump);
        r := PatchJump(thenJump.value);
        EmitByte(OpPop);
        r := Statement();
        if r.Err? {
          return;
        }
        r := PatchJump(elseJump.value);
      } else {
        r := PatchJump(thenJump.value);
      }
      r := Ok(());
    }

    /**
     * `while_statement`: the condition, a conditional exit jump, the body,
     * and a loop back to the condition; the exit lands on the final POP.
     */
    method WhileStatement() returns (r: Result<(), ParseError>)
      requires Valid()
      modifies this, scanner
      ensures Valid() && Measure() <= old(Measure()) && hadError == old(hadError) && reported == old(reported)
      ensures r.Ok? ==> Kept()
      ensures r.Ok? ==> LoopsBackTo(chunk.code, |old(chunk.code)|)
      decreases Measure(), 6
    {
      var start := |chunk.code|;
      r := Condition();
      if r.Err? {
        return;
      }
      var exitJump := SkipIfFalse();
      assert start < exitJump.value && exitJump.value + USIZE < |chunk.code|;
      r := Statement();
      if r.Err? {
        return;
      }
      ghost var body := chunk.code;
      CloseLoop(start, exitJump.value);
      LoopClosedShape(body, start, exitJump.value);
      r := Ok(());
    }

    /**
     * The tail of `while_statement`: the loop back to `start`, the exit
     * jump at `exitJump` patched to land on the POP that follows.
     */
    method CloseLoop(start: nat, exitJump: nat)
      requires Valid() && start <= |chunk.code| && exitJump + USIZE <= |chunk.code|
      modifies this
      ensures Valid() && Measure() == old(Measure()) && OnlyChunk() && chunk.constants == old(chunk.constants)
      ensures chunk.code == LoopClosed(old(chunk.code), start, exitJump)
    {
      var code, lines := LoopCode(chunk.code, chunk.lines, start, exitJump, previous.line);
      chunk := Code(code, lines, chunk.constants);
    }

    /** The conditional jump `if` and `while` emit after their condition, and the POP of the condition when it is true. */
    method SkipIfFalse() returns (r: Result<nat, ParseError>)
      requires Valid()
      modifies this
      ensures Valid() && Measure() == old(Measure()) && Emitted([OpJumpIfFalse] + Repeat(0xff as byte, USIZE) + [OpPop])
      ensures r == Ok(|old(chunk.code)| + 1)
    {
      r := EmitJump(OpJumpIfFalse);
      EmitByte(OpPop);
    }

    /** `(` expression `)`, as `if` and `while` read their condition. */
    method Condition() returns (r: Result<(), ParseError>)
      requires Valid()
      modifies this, scanner
      ensures Valid() && Measure() <= old(Measure()) && hadError == old(hadError) && reported == old(reported)
      ensures r.Ok? ==> KeptLocals()
      decreases Measure(), 3
    {
      r := Expect(LeftParen);
      if r.Err? {
        return;
      }
      r := Expression();
      if r.Err? {
        return;
      }
      r := Expect(RightParen);
    }

    /** `block`: declarations up to the closing brace. */
    method Block() returns (r: Result<(), ParseError>)
      requires Valid()
      modifies this, scanner
      ensures Valid() && Measure() <= old(Measure()) && hadError == old(hadError) && reported == old(reported)
      ensures r.Ok? ==> Kept() && previous.ttype == RightBrace
      decreases Measure(), 8
    {
      while !IsMatch(RightBrace) && !IsMatch(Eof)
        invariant Valid() && Measure() <= old(Measure()) && hadError == old(hadError) && reported == old(reported) && Kept()
        decreases Measure()
      {
        r := Declaration();
        if r.Err? {
          return;
        }
      }
      r := Expect(RightBrace);
    }

    /** `expression_statement`: the value is computed and popped. */
    method ExpressionStatement() returns (r: Result<(), ParseError>)
      requires Valid()
      modifies this, scanner
      ensures Valid() && Measure() <= old(Measure()) && hadError == old(hadError) && reported == old(reported)
      ensures old(current.ttype) != Eof ==> Measure() < old(Measure())
      ensures r.Ok? ==> KeptLocals() && previous.ttype == Semicolon
      ensures r.Ok? ==> |old(chunk.code)| < |chunk.code| && chunk.code[|chunk.code| - 1] == OpPop
      decreases Measure(), 3
    {
      r := Expression();
      if r.Err? {
        return;
      }
      r := Expect(Semicolon);
      if r.Err? {
        return;
      }
      EmitByte(OpPop);
      r := Ok(());
    }

    /** `print_statement`. */
    method PrintStatement() returns (r: Result<(), ParseError>)
      requires Valid()
      modifies this, scanner
      ensures Valid() && Measure() <= old(Measure()) && hadError == old(hadError) && reported == old(reported)
      ensures r.Ok? ==> KeptLocals() && previous.ttype == Semicolon
      ensures r.Ok? ==> |old(chunk.code)| < |chunk.code| && chunk.code[|chunk.code| - 1] == OpPrint
      decreases Measure(), 3
    {
      r := Expression();
      if r.Err? {
        return;
      }
      r := Expect(Semicolon);
      if r.Err? {
        return;
      }
      EmitByte(OpPrint);
      r := Ok(());
    }

    // -------------------------------------------------------------------
    // Error recovery and the driver.
    // -------------------------------------------------------------------

    /** `synchronize`: skip tokens up to a statement boundary or the end of input. */
    method Synchronize()
      requires Valid()
      modifies this, scanner
      ensures Valid() && Books() == old(Books()) && hadError == old(hadError) && reported == old(reported) && Measure() <= old(Measure())
      ensures current.ttype == Eof || previous.ttype == Semicolon || current.ttype in SyncPoints
    {
      while current.ttype != Eof
        invariant Valid() && Books() == old(Books()) && hadError == old(hadError) && reported == old(reported) && Measure() <= old(Measure())
        decreases Measure()
      {
        if previous.ttype == Semicolon {
          return;
        }
        if current.ttype in SyncPoints {
          return;
        }
        var ignored := Advance();
      }
    }

    /** `handle_result`: an error is recorded and printed, and parsing resumes at the next statement. */
    method HandleResult(res: Result<(), ParseError>)
      requires Valid()
      modifies this, scanner
      ensures Valid() && Books() == old(Books()) && Measure() <= old(Measure())
      ensures res.Ok? ==> Cursor() == old(Cursor()) && hadError == old(hadError) && reported == old(reported)
      ensures res.Err? ==> hadError && reported == old(reported) + [res.error]
      ensures res.Err? ==> current.ttype == Eof || previous.ttype == Semicolon || current.ttype in SyncPoints
    {
      if res.Err? {
        hadError := true;
        reported := reported + [res.error];
        var ignored := Advance();
        Synchronize();
      }
    }

    /**
     * `parse`: declarations up to the end of input, each error reported and
     * recovered from; the script is a function of no parameters named "",
     * returned only when no error was reported.
     */
    method Parse() returns (r: Option<O.ObjFunction>)
      requires Valid()
      modifies this, scanner
      ensures Valid() && previous.ttype == Eof && old(reported) <= reported
      ensures r.None? <==> |reported| > 0
      ensures r.Some? ==> r.value == O.ObjFunction(0, 0, chunk, "")
      ensures ReturnsNil(chunk.code)
    {
      var res := Advance();
      HandleResult(res);
      while true
        invariant Valid() && old(reported) <= reported
        decreases Measure()
      {
        var done := MatchAdvance(Eof);
        if done {
          break;
        }
        res := Declaration();
        HandleResult(res);
      }
      EmitReturn();
      if hadError {
        return Option.None;
      }
      r := Some(O.ObjFunction(0, 0, chunk, ""));
    }
  }

  /**
   * `compile`: a fresh parser over the source.  The result is absent
   * exactly when an error was reported; otherwise it is a script of no
   * parameters and no upvalues whose code ends by returning nil.
   */
  method Compile(src: string) returns (r: Option<O.ObjFunction>, ghost errors: seq<ParseError>)
    requires LookaheadSafe(src)
    ensures r.None? <==> |errors| > 0
    ensures r.Some? ==> r.value.arity == 0 && r.value.upvalue == 0 && r.value.name == ""
                        && ReturnsNil(r.value.chunk.code)
  {
    var parser := new Parser(src);
    r := parser.Parse();
    errors := parser.reported;
  }
}
