// The compile-time bookkeeping of src/compile.rs: binding powers, the locals
// of a function being compiled, the upvalues it captures, and the
// functions that say what the compiler's loops over them compute.  Names
// are compared by their text in the source, as `identifier_equal` does.

module CompileScope {
  import opened Wrappers
  import opened Token
  import opened Lexer
  import opened Chunk

  // ---------------------------------------------------------------------
  // Binding powers.
  // ---------------------------------------------------------------------

  datatype Prec = None | Assignment | Or | And | Equality | Comparison | Term | Factor | Unary | Call | Primary

  /** `as_u8`: the discriminant. */
  function Level(p: Prec): (n: nat)
    ensures n <= 10
  {
    match p
    case None => 0
    case Assignment => 1
    case Or => 2
    case And => 3
    case Equality => 4
    case Comparison => 5
    case Term => 6
    case Factor => 7
    case Unary => 8
    case Call => 9
    case Primary => 10
  }

  /** The `Ord` of `Prec`: by discriminant. */
  predicate AtMost(a: Prec, b: Prec)
  {
    Level(a) <= Level(b)
  }

  /** Distinct binding powers have distinct discriminants, so `AtMost` is a total order. */
  lemma LevelInjective(a: Prec, b: Prec)
    ensures Level(a) == Level(b) ==> a == b
    ensures AtMost(a, b) || AtMost(b, a)
    ensures AtMost(a, b) && AtMost(b, a) ==> a == b
  {
  }

  /** `next`: one level tighter, and `Primary` stays `Primary`. */
  function Next(p: Prec): (r: Prec)
    ensures Level(r) == if Level(p) < 10 then Level(p) + 1 else 10
  {
    match p
    case None => Assignment
    case Assignment => Prec.Or
    case Or => Prec.And
    case And => Equality
    case Equality => Comparison
    case Comparison => Term
    case Term => Factor
    case Factor => Unary
    case Unary => Call
    case Call => Primary
    case Primary => Primary
  }

  /** `get_precedence`: how tightly a token binds as an infix operator. */
  function GetPrecedence(t: TokenType): (r: Prec)
    ensures t in {Minus, Plus} <==> r == Term
    ensures t in {Slash, Star} <==> r == Factor
    ensures t in {BangEqual, EqualEqual} <==> r == Equality
    ensures t in {Greater, GreaterEqual, Less, LessEqual} <==> r == Comparison
    ensures t in {LeftParen, Dot} <==> r == Call
    ensures t == TokenType.And <==> r == Prec.And
    ensures t == TokenType.Or <==> r == Prec.Or
    ensures r in {Prec.None, Term, Factor, Equality, Comparison, Call, Prec.And, Prec.Or}
  {
    match t
    case Minus => Term
    case Plus => Term
    case Slash => Factor
    case Star => Factor
    case BangEqual => Equality
    case EqualEqual => Equality
    case Greater => Comparison
    case GreaterEqual => Comparison
    case Less => Comparison
    case LessEqual => Comparison
    case LeftParen => Call
    case Dot => Call
    case And => Prec.And
    case Or => Prec.Or
    case _ => Prec.None
  }

  /** The operators `binary` accepts. */
  predicate IsBinaryOperator(t: TokenType)
  {
    t in {Minus, Plus, Slash, Star, BangEqual, EqualEqual, Greater, GreaterEqual, Less, LessEqual}
  }

  /**
   * The infix loop of `parse_precedence` continues on exactly the tokens it
   * has a rule for: binary operators, `and`, `or`, `(` and `.`.  The end of
   * input binds not at all, so the loop stops there; and the right operand
   * of a binary operator binds one level tighter, which makes binary
   * operators left-associative.
   */
  lemma InfixTokens(t: TokenType)
    ensures GetPrecedence(t) != Prec.None <==> IsBinaryOperator(t) || t in {TokenType.And, TokenType.Or, LeftParen, Dot}
    ensures GetPrecedence(Eof) == Prec.None
    ensures IsBinaryOperator(t) ==> !AtMost(Next(GetPrecedence(t)), GetPrecedence(t))
  {
  }

  // ---------------------------------------------------------------------
  // Locals, upvalues and scopes.
  // ---------------------------------------------------------------------

  /** A local: its name token, its depth (-1 while its initializer is compiled) and whether a closure captures it. */
  datatype Local = Local(name: NewToken, depth: int, isCaptured: bool)

  /** An upvalue of the function being compiled: a slot of the enclosing function, or one of its upvalues. */
  datatype Upvalue = Upvalue(index: byte, isLocal: bool)

  datatype Scope = Scope(locals: seq<Local>, depth: int, upvalues: seq<Upvalue>)

  /** `Scope::init`: slot 0 holds the function itself (named by `token`), at depth 0. */
  function InitScope(token: NewToken): (s: Scope)
    ensures s.locals == [Local(token, 0, false)] && s.depth == 0 && s.upvalues == []
  {
    Scope([Local(token, 0, false)], 0, [])
  }

  /** What survives of a scope the compiler stashed while compiling an inner function. */
  predicate SameShape(a: Scope, b: Scope)
  {
    a.depth == b.depth && |a.locals| == |b.locals|
  }

  /** The depth and number of locals of each scope in a stack of them. */
  function Shapes(hs: seq<Scope>): (r: seq<(int, nat)>)
    ensures |r| == |hs|
    ensures forall j :: 0 <= j < |hs| ==> r[j] == (hs[j].depth, |hs[j].locals|)
  {
    seq(|hs|, j requires 0 <= j < |hs| => (hs[j].depth, |hs[j].locals|))
  }

  /** Popping the same number of scopes off two stacks of the same shape leaves stacks of the same shape. */
  lemma ShapesPop(hs: seq<Scope>, gs: seq<Scope>)
    requires |hs| > 0 && Shapes(hs) == Shapes(gs)
    ensures Shapes(hs[..|hs| - 1]) == Shapes(gs[..|gs| - 1])
    ensures hs[|hs| - 1].depth == gs[|gs| - 1].depth && |hs[|hs| - 1].locals| == |gs[|gs| - 1].locals|
  {
    var n := |hs| - 1;
    assert Shapes(hs)[n] == Shapes(gs)[n];
    assert forall j :: 0 <= j < n ==> Shapes(hs)[j] == Shapes(gs)[j];
  }

  /** `as u8`. */
  function Truncate(n: nat): (b: byte)
    ensures n < 256 ==> b as int == n
  {
    (n % 256) as byte
  }

  /** Counting one more then truncating is truncating then adding one modulo 256. */
  lemma TruncateNext(n: nat)
    ensures Truncate(Truncate(n) as int + 1) == Truncate(n + 1)
  {
  }

  /** The text of a local's name. */
  function NameOf(src: string, l: Local): string
  {
    Slice(src, l.name.start, l.name.length)
  }

  // --- declare_variable --------------------------------------------------

  /**
   * Where the backwards scan of `declare_variable` stops below `n`: just
   * above the nearest local shallower than `depth`, or 0.
   */
  function Floor(ls: seq<Local>, n: nat, depth: int): (m: nat)
    requires n <= |ls|
    ensures m <= n
    ensures forall i :: m <= i < n ==> !(depth != -1 && ls[i].depth < depth)
    ensures m > 0 ==> depth != -1 && ls[m - 1].depth < depth
  {
    if n == 0 || (depth != -1 && ls[n - 1].depth < depth) then n else Floor(ls, n - 1, depth)
  }

  /** A same-named local in the current scope: between the floor and the top of the locals. */
  predicate Redeclares(src: string, ls: seq<Local>, depth: int, name: string)
  {
    exists i :: Floor(ls, |ls|, depth) <= i < |ls| && NameOf(src, ls[i]) == name
  }

  // --- resolve_local ------------------------------------------------------

  /** The highest local below `n` with the given name. */
  function LastNamed(src: string, ls: seq<Local>, n: nat, name: string): (r: Option<nat>)
    requires n <= |ls|
    ensures r.Some? ==> r.value < n && NameOf(src, ls[r.value]) == name
    ensures r.Some? ==> forall j :: r.value < j < n ==> NameOf(src, ls[j]) != name
    ensures r.None? ==> forall j :: 0 <= j < n ==> NameOf(src, ls[j]) != name
  {
    if n == 0 then Option.None
    else if NameOf(src, ls[n - 1]) == name then Some(n - 1)
    else LastNamed(src, ls, n - 1, name)
  }

  // --- end_scope ----------------------------------------------------------

  /** How many locals at the top are deeper than `d`. */
  function Trailing(ls: seq<Local>, d: int): (k: nat)
    ensures k <= |ls|
    ensures forall i :: |ls| - k <= i < |ls| ==> ls[i].depth > d
    ensures k < |ls| ==> ls[|ls| - k - 1].depth <= d
  {
    if ls == [] || ls[|ls| - 1].depth <= d then 0 else 1 + Trailing(ls[..|ls| - 1], d)
  }

  /** The instruction that discards one local on leaving its scope. */
  function Discard(l: Local): byte
  {
    if l.isCaptured then OpCloseUpvalue else OpPop
  }

  /** The instructions discarding `ls`, top first. */
  function ClosingCode(ls: seq<Local>): (bs: seq<byte>)
    ensures |bs| == |ls|
    ensures forall i :: 0 <= i < |ls| ==> bs[i] == Discard(ls[|ls| - 1 - i])
  {
    if ls == [] then [] else ClosingCode(ls[1..]) + [Discard(ls[0])]
  }

  // --- add_upvalue! ---------------------------------------------------------

  /** The highest entry below `n` equal to `u`. */
  function FindUpvalue(ups: seq<Upvalue>, u: Upvalue, n: nat): (r: Option<nat>)
    requires n <= |ups|
    ensures r.Some? ==> r.value < n && ups[r.value] == u
    ensures r.None? ==> forall j :: 0 <= j < n ==> ups[j] != u
  {
    if n == 0 then Option.None
    else if ups[n - 1] == u then Some(n - 1)
    else FindUpvalue(ups, u, n - 1)
  }

  predicate Distinct(ups: seq<Upvalue>)
  {
    forall i, j :: 0 <= i < j < |ups| ==> ups[i] != ups[j]
  }

  /**
   * The `add_upvalue!` macro: the index of an equal entry if there is one,
   * otherwise the entry is appended and its index returned.  The indices
   * are `u8`s; `len as u8 - 1` wraps.
   */
  function AddUpvalue(s: Scope, index: byte, isLocal: bool): (r: (Scope, byte))
    ensures r.0.locals == s.locals && r.0.depth == s.depth
  {
    var u := Upvalue(index, isLocal);
    match FindUpvalue(s.upvalues, u, |s.upvalues|)
    case Some(i) => (s, Truncate(i))
    case None => (s.(upvalues := s.upvalues + [u]), ((Truncate(|s.upvalues| + 1) as int + 255) % 256) as byte)
  }

  /** An entry already present is reused; otherwise it is appended; either way no entry appears twice. */
  lemma AddUpvalueDeduplicates(s: Scope, index: byte, isLocal: bool)
    requires Distinct(s.upvalues)
    ensures var (s', k) := AddUpvalue(s, index, isLocal);
            var u := Upvalue(index, isLocal);
            Distinct(s'.upvalues)
            && (u in s.upvalues ==> s'.upvalues == s.upvalues)
            && (u !in s.upvalues ==> s'.upvalues == s.upvalues + [u])
            && (|s'.upvalues| <= 256 ==> k as int < |s'.upvalues| && s'.upvalues[k] == u)
  {
  }

  /** The chain to an enclosing function's local, from the function enclosing it outwards: `add_upvalues`. */
  function MarkCaptured(s: Scope, pos: nat): (r: Scope)
    requires pos < |s.locals|
    ensures SameShape(s, r) && r.upvalues == s.upvalues
    ensures |r.locals| == |s.locals| && r.locals[pos] == s.locals[pos].(isCaptured := true)
    ensures forall j :: 0 <= j < |s.locals| && j != pos ==> r.locals[j] == s.locals[j]
  {
    s.(locals := s.locals[pos := s.locals[pos].(isCaptured := true)])
  }

  /** The `for i in depth + 2..` loop of `add_upvalues`: each later function captures the previous one's upvalue. */
  function Thread(hs: seq<Scope>, i: nat, index: byte): (r: (seq<Scope>, byte))
    requires i <= |hs|
    ensures |r.0| == |hs| && r.0[..i] == hs[..i]
    ensures forall j :: 0 <= j < |hs| ==> SameShape(hs[j], r.0[j])
    decreases |hs| - i
  {
    if i == |hs| then (hs, index)
    else
      var (s, k) := AddUpvalue(hs[i], index, false);
      Thread(hs[i := s], i + 1, k)
  }

  /** `add_upvalues`: the local `pos` of the stashed scope `depth` is captured through every function inside it. */
  function Capture(hs: seq<Scope>, current: Scope, depth: nat, pos: nat): (r: (seq<Scope>, Scope, byte))
    requires depth < |hs| && pos < |hs[depth].locals|
    ensures |r.0| == |hs| && r.0[..depth] == hs[..depth]
    ensures forall j :: 0 <= j < |hs| ==> SameShape(hs[j], r.0[j])
    ensures Shapes(r.0) == Shapes(hs)
    ensures r.1.locals == current.locals && r.1.depth == current.depth
    ensures pos < |r.0[depth].locals| && r.0[depth].locals[pos].isCaptured
  {
    var hs1 := hs[depth := MarkCaptured(hs[depth], pos)];
    if depth + 1 == |hs| then
      var (s, k) := AddUpvalue(current, Truncate(pos), true);
      (hs1, s, k)
    else
      var (s1, k1) := AddUpvalue(hs1[depth + 1], Truncate(pos), true);
      var (hs2, k) := Thread(hs1[depth + 1 := s1], depth + 2, k1);
      assert hs2[depth] == hs1[depth] by {
        assert hs2[..depth + 2][depth] == hs2[depth];
      }
      var (s, k') := AddUpvalue(current, k, false);
      (hs2, s, k')
  }

  predicate AllDistinct(hs: seq<Scope>)
  {
    forall j :: 0 <= j < |hs| ==> Distinct(hs[j].upvalues)
  }

  lemma {:induction false} ThreadDistinct(hs: seq<Scope>, i: nat, index: byte)
    requires i <= |hs| && AllDistinct(hs)
    ensures AllDistinct(Thread(hs, i, index).0)
    decreases |hs| - i
  {
    if i < |hs| {
      AddUpvalueDeduplicates(hs[i], index, false);
      var (s, k) := AddUpvalue(hs[i], index, false);
      ThreadDistinct(hs[i := s], i + 1, k);
    }
  }

  /**
   * Capturing a variable never makes an upvalue list hold the same entry
   * twice, anywhere along the chain of enclosing functions.
   */
  lemma CaptureDistinct(hs: seq<Scope>, current: Scope, depth: nat, pos: nat)
    requires depth < |hs| && pos < |hs[depth].locals|
    requires AllDistinct(hs) && Distinct(current.upvalues)
    ensures var (hs', s, _) := Capture(hs, current, depth, pos);
            AllDistinct(hs') && Distinct(s.upvalues)
  {
    var hs1 := hs[depth := MarkCaptured(hs[depth], pos)];
    assert AllDistinct(hs1);
    if depth + 1 == |hs| {
      AddUpvalueDeduplicates(current, Truncate(pos), true);
    } else {
      AddUpvalueDeduplicates(hs1[depth + 1], Truncate(pos), true);
      var (s1, k1) := AddUpvalue(hs1[depth + 1], Truncate(pos), true);
      ThreadDistinct(hs1[depth + 1 := s1], depth + 2, k1);
      var (hs2, k) := Thread(hs1[depth + 1 := s1], depth + 2, k1);
      AddUpvalueDeduplicates(current, k, false);
    }
  }

  // --- resolve_upvalue ----------------------------------------------------

  /** The highest local of scope `s` with the name. */
  function Holds(src: string, s: Scope, name: string): (r: Option<nat>)
    ensures r.Some? ==> r.value < |s.locals| && NameOf(src, s.locals[r.value]) == name
  {
    LastNamed(src, s.locals, |s.locals|, name)
  }

  /** The innermost stashed scope below `n` holding the name, with that local's highest index. */
  function Enclosing(src: string, hs: seq<Scope>, n: nat, name: string): (r: Option<(nat, nat)>)
    requires n <= |hs|
    ensures r.Some? ==> r.value.0 < n && Holds(src, hs[r.value.0], name) == Some(r.value.1)
    ensures r.Some? ==> forall d :: r.value.0 < d < n ==> Holds(src, hs[d], name).None?
    ensures r.None? ==> forall d :: 0 <= d < n ==> Holds(src, hs[d], name).None?
  {
    if n == 0 then Option.None
    else match Holds(src, hs[n - 1], name)
      case Some(i) => Some((n - 1, i))
      case None => Enclosing(src, hs, n - 1, name)
  }
}
