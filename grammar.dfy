// The recursive-descent parser of the tree-walking pipeline (src/parser.rs),
// as functions over the token list.  The queue the source pops from is the
// suffix of the list from a position on; each function takes that position
// and the next fresh node id, and gives back its result together with the
// position of the first token it did not consume and the next fresh id;
// `pop_front` is `Advance`.  The class in treeparser.dfy runs the same
// grammar in place and is proved to agree with these functions.

module Grammar {
  import opened Wrappers
  import opened Token
  import E = Exprs
  import S = Stmts

  datatype ParseError = ParseError(line: int, reason: string)

  /**
   * A parse function's outcome, the position of the first token it did not
   * consume, and the next fresh id.
   */
  datatype Parsed<T> = Parsed(result: Result<T, ParseError>, pos: nat, counter: nat)

  /**
   * A token list the parser can work on: it ends with `Eof`, which no parse
   * function consumes (so `front().unwrap()` never fails), and number and
   * string tokens carry their value.
   */
  predicate Valid(toks: seq<Token>) {
    |toks| > 0 && toks[|toks| - 1].ttype == Eof &&
    forall i :: 0 <= i < |toks| && toks[i].ttype in {TokenType.Number, TokenType.String} ==> toks[i].lexeme.Some?
  }

  /** What every parse function guarantees: it only pops tokens, never `Eof`, and only takes fresh ids. */
  predicate Moved<T>(toks: seq<Token>, pos: nat, c: nat, r: Parsed<T>) {
    pos <= r.pos < |toks| && r.counter >= c
  }

  /** As `Moved`, and a successful parse consumed at least one token. */
  predicate Advanced<T>(toks: seq<Token>, pos: nat, c: nat, r: Parsed<T>) {
    Moved(toks, pos, c, r) && (r.result.Ok? ==> r.pos > pos)
  }

  /** `pop_front`, applied only when the head is not `Eof`. */
  function Advance(toks: seq<Token>, pos: nat): (r: nat)
    requires Valid(toks) && pos < |toks| && toks[pos].ttype != Eof
    ensures r == pos + 1 && r < |toks|
  {
    pos + 1
  }

  function Fail<T>(toks: seq<Token>, pos: nat, reason: string, c: nat): (r: Parsed<T>)
    requires pos < |toks|
    ensures r.result.Err? && r.result.error.line == toks[pos].line && r.pos == pos && r.counter == c
  {
    Parsed(Err(ParseError(toks[pos].line, reason)), pos, c)
  }

  /** Passes an error on to the caller, with the queue as the failed parse left it. */
  function Propagate<T, U>(r: Parsed<T>): (p: Parsed<U>)
    requires r.result.Err?
    ensures p.result == Err(r.result.error) && p.pos == r.pos && p.counter == r.counter
  {
    Parsed(Err(r.result.error), r.pos, r.counter)
  }

  // ---------------------------------------------------------------------
  // Precedence levels of the expression tree.  A node built by the rule of
  // level k has `Level` k; the rules below keep every tree `Associated`:
  // binary and logical nodes have a left operand of the same or a higher
  // level and a right operand of a strictly higher level, which is what
  // makes the chains `a op b op c` left-associative.
  // ---------------------------------------------------------------------

  function Level(e: E.Expr): nat {
    match e
    case Assign(_, _, _) => 1
    case Set(_, _, _) => 1
    case Logical(_, op, _) => if op.ttype == TokenType.Or then 2 else 3
    case Binary(_, op, _) => BinaryLevel(op.ttype)
    case _ => 8
  }

  function BinaryLevel(t: TokenType): nat {
    match t
    case BangEqual => 4
    case EqualEqual => 4
    case Greater => 5
    case GreaterEqual => 5
    case Less => 5
    case LessEqual => 5
    case Plus => 6
    case Minus => 6
    case _ => 7
  }

  predicate Associated(e: E.Expr) {
    match e
    case Binary(l, _, r) => Level(l) >= Level(e) && Level(r) > Level(e) && Associated(l) && Associated(r)
    case Logical(l, _, r) => Level(l) >= Level(e) && Level(r) > Level(e) && Associated(l) && Associated(r)
    case Assign(_, v, _) => Associated(v)
    case Set(o, _, v) => Level(o) == 8 && Associated(o) && Associated(v)
    case Unary(_, r) => Level(r) == 8 && Associated(r)
    case Call(f, _, args) => Level(f) == 8 && Associated(f) && forall a :: a in args ==> Associated(a)
    case Get(o, _) => Level(o) == 8 && Associated(o)
    case Grouping(x) => Associated(x)
    case _ => true
  }

  /** A successful parse at level `k` gives an associated tree of level at least `k`. */
  predicate AtLevel(r: Parsed<E.Expr>, k: nat) {
    r.result.Ok? ==> Level(r.result.value) >= k && Associated(r.result.value)
  }

  // ---------------------------------------------------------------------
  // Expressions: `expression` ... `primary`.  The second component of each
  // `decreases` orders the rules that call one another at one position.
  // ---------------------------------------------------------------------

  function Expression(toks: seq<Token>, pos: nat, c: nat): (r: Parsed<E.Expr>)
    requires Valid(toks) && pos < |toks|
    ensures Advanced(toks, pos, c, r)
    decreases |toks| - pos, 19
  {
    Assignment(toks, pos, c)
  }

  function Assignment(toks: seq<Token>, pos: nat, c: nat): (r: Parsed<E.Expr>)
    requires Valid(toks) && pos < |toks|
    ensures Advanced(toks, pos, c, r)
    decreases |toks| - pos, 18
  {
    var o := Or(toks, pos, c);
    if o.result.Err? || toks[o.pos].ttype != TokenType.Equal then o
    else AssignTo(o.result.value, toks, Advance(toks, o.pos), o.counter)
  }

  /** The right operand of `=` and the node it makes with the target `target`. */
  function AssignTo(target: E.Expr, toks: seq<Token>, pos: nat, c: nat): (r: Parsed<E.Expr>)
    requires Valid(toks) && pos < |toks|
    ensures Moved(toks, pos, c, r)
    ensures r.result.Ok? ==> r.result.value.Assign? || r.result.value.Set?
    decreases |toks| - pos, 20
  {
    match target
    case Variable(name, _) =>
      var v := Assignment(toks, pos, c);
      if v.result.Err? then v
      else Parsed(Ok(E.Assign(name, v.result.value, v.counter)), v.pos, v.counter + 1)
    case Get(obj, name) =>
      var v := Assignment(toks, pos, c);
      if v.result.Err? then v
      else Parsed(Ok(E.Set(obj, name, v.result.value)), v.pos, v.counter)
    case _ => Fail(toks, pos, "Assign to something not assignable.", c)
  }

  function Or(toks: seq<Token>, pos: nat, c: nat): (r: Parsed<E.Expr>)
    requires Valid(toks) && pos < |toks|
    ensures Advanced(toks, pos, c, r)
    decreases |toks| - pos, 17
  {
    var l := And(toks, pos, c);
    if l.result.Err? then l else OrRest(l.result.value, toks, l.pos, l.counter)
  }

  function OrRest(left: E.Expr, toks: seq<Token>, pos: nat, c: nat): (r: Parsed<E.Expr>)
    requires Valid(toks) && pos < |toks|
    ensures Moved(toks, pos, c, r)
    decreases |toks| - pos, 16
  {
    if toks[pos].ttype != TokenType.Or then Parsed(Ok(left), pos, c)
    else
      var x := And(toks, Advance(toks, pos), c);
      if x.result.Err? then x else OrRest(E.Logical(left, toks[pos], x.result.value), toks, x.pos, x.counter)
  }

  function And(toks: seq<Token>, pos: nat, c: nat): (r: Parsed<E.Expr>)
    requires Valid(toks) && pos < |toks|
    ensures Advanced(toks, pos, c, r)
    decreases |toks| - pos, 15
  {
    var l := Equality(toks, pos, c);
    if l.result.Err? then l else AndRest(l.result.value, toks, l.pos, l.counter)
  }

  function AndRest(left: E.Expr, toks: seq<Token>, pos: nat, c: nat): (r: Parsed<E.Expr>)
    requires Valid(toks) && pos < |toks|
    ensures Moved(toks, pos, c, r)
    decreases |toks| - pos, 14
  {
    if toks[pos].ttype != TokenType.And then Parsed(Ok(left), pos, c)
    else
      var x := Equality(toks, Advance(toks, pos), c);
      if x.result.Err? then x else AndRest(E.Logical(left, toks[pos], x.result.value), toks, x.pos, x.counter)
  }

  function Equality(toks: seq<Token>, pos: nat, c: nat): (r: Parsed<E.Expr>)
    requires Valid(toks) && pos < |toks|
    ensures Advanced(toks, pos, c, r)
    decreases |toks| - pos, 13
  {
    var l := Comparison(toks, pos, c);
    if l.result.Err? then l else EqualityRest(l.result.value, toks, l.pos, l.counter)
  }

  function EqualityRest(left: E.Expr, toks: seq<Token>, pos: nat, c: nat): (r: Parsed<E.Expr>)
    requires Valid(toks) && pos < |toks|
    ensures Moved(toks, pos, c, r)
    decreases |toks| - pos, 12
  {
    if toks[pos].ttype !in {BangEqual, EqualEqual} then Parsed(Ok(left), pos, c)
    else
      var x := Comparison(toks, Advance(toks, pos), c);
      if x.result.Err? then x else EqualityRest(E.Binary(left, toks[pos], x.result.value), toks, x.pos, x.counter)
  }

  function Comparison(toks: seq<Token>, pos: nat, c: nat): (r: Parsed<E.Expr>)
    requires Valid(toks) && pos < |toks|
    ensures Advanced(toks, pos, c, r)
    decreases |toks| - pos, 11
  {
    var l := Term(toks, pos, c);
    if l.result.Err? then l else ComparisonRest(l.result.value, toks, l.pos, l.counter)
  }

  function ComparisonRest(left: E.Expr, toks: seq<Token>, pos: nat, c: nat): (r: Parsed<E.Expr>)
    requires Valid(toks) && pos < |toks|
    ensures Moved(toks, pos, c, r)
    decreases |toks| - pos, 10
  {
    if toks[pos].ttype !in {Greater, GreaterEqual, Less, LessEqual} then Parsed(Ok(left), pos, c)
    else
      var x := Term(toks, Advance(toks, pos), c);
      if x.result.Err? then x else ComparisonRest(E.Binary(left, toks[pos], x.result.value), toks, x.pos, x.counter)
  }

  function Term(toks: seq<Token>, pos: nat, c: nat): (r: Parsed<E.Expr>)
    requires Valid(toks) && pos < |toks|
    ensures Advanced(toks, pos, c, r)
    decreases |toks| - pos, 9
  {
    var l := Factor(toks, pos, c);
    if l.result.Err? then l else TermRest(l.result.value, toks, l.pos, l.counter)
  }

  function TermRest(left: E.Expr, toks: seq<Token>, pos: nat, c: nat): (r: Parsed<E.Expr>)
    requires Valid(toks) && pos < |toks|
    ensures Moved(toks, pos, c, r)
    decreases |toks| - pos, 8
  {
    if toks[pos].ttype !in {Plus, Minus} then Parsed(Ok(left), pos, c)
    else
      var x := Factor(toks, Advance(toks, pos), c);
      if x.result.Err? then x else TermRest(E.Binary(left, toks[pos], x.result.value), toks, x.pos, x.counter)
  }

  function Factor(toks: seq<Token>, pos: nat, c: nat): (r: Parsed<E.Expr>)
    requires Valid(toks) && pos < |toks|
    ensures Advanced(toks, pos, c, r)
    decreases |toks| - pos, 7
  {
    var l := Unary(toks, pos, c);
    if l.result.Err? then l else FactorRest(l.result.value, toks, l.pos, l.counter)
  }

  function FactorRest(left: E.Expr, toks: seq<Token>, pos: nat, c: nat): (r: Parsed<E.Expr>)
    requires Valid(toks) && pos < |toks|
    ensures Moved(toks, pos, c, r)
    decreases |toks| - pos, 6
  {
    if toks[pos].ttype !in {Slash, Star} then Parsed(Ok(left), pos, c)
    else
      var x := Unary(toks, Advance(toks, pos), c);
      if x.result.Err? then x else FactorRest(E.Binary(left, toks[pos], x.result.value), toks, x.pos, x.counter)
  }

  function Unary(toks: seq<Token>, pos: nat, c: nat): (r: Parsed<E.Expr>)
    requires Valid(toks) && pos < |toks|
    ensures Advanced(toks, pos, c, r)
    decreases |toks| - pos, 5
  {
    if toks[pos].ttype in {Bang, Minus} then
      var x := Unary(toks, Advance(toks, pos), c);
      if x.result.Err? then x else Parsed(Ok(E.Unary(toks[pos], x.result.value)), x.pos, x.counter)
    else Call(toks, pos, c)
  }

  function Call(toks: seq<Token>, pos: nat, c: nat): (r: Parsed<E.Expr>)
    requires Valid(toks) && pos < |toks|
    ensures Advanced(toks, pos, c, r)
    decreases |toks| - pos, 4
  {
    var p := Primary(toks, pos, c);
    if p.result.Err? then p else CallRest(p.result.value, toks, p.pos, p.counter)
  }

  /** `e` is `base` with calls and property accesses applied to it, innermost first. */
  predicate Postfixed(e: E.Expr, base: E.Expr) {
    e == base || (e.Call? && Postfixed(e.callee, base)) || (e.Get? && Postfixed(e.obj, base))
  }

  /** One postfix step on `base` may be absorbed into what follows it. */
  lemma {:induction false} PostfixedStep(e: E.Expr, step: E.Expr, base: E.Expr)
    requires (step.Call? && step.callee == base) || (step.Get? && step.obj == base)
    requires Postfixed(e, step)
    ensures Postfixed(e, base)
  {
    if e != step {
      if e.Call? && Postfixed(e.callee, step) {
        PostfixedStep(e.callee, step, base);
      } else {
        PostfixedStep(e.obj, step, base);
      }
    }
  }

  /** The postfix loop of `call`: calls and property accesses, left to right. */
  function CallRest(callee: E.Expr, toks: seq<Token>, pos: nat, c: nat): (r: Parsed<E.Expr>)
    requires Valid(toks) && pos < |toks|
    ensures Moved(toks, pos, c, r)
    ensures r.result.Ok? ==> Postfixed(r.result.value, callee)
    decreases |toks| - pos, 3
  {
    if toks[pos].ttype == LeftParen then
      var f := FinishCall(callee, toks, pos, c);
      if f.result.Err? then f
      else
        var r := CallRest(f.result.value, toks, f.pos, f.counter);
        if r.result.Ok? then PostfixedStep(r.result.value, f.result.value, callee); r else r
    else if toks[pos].ttype == Dot then
      var t := Advance(toks, pos);
      if toks[t].ttype != Identifier then Fail(toks, t, "Invalid class method.", c)
      else
        var r := CallRest(E.Get(callee, toks[t]), toks, Advance(toks, t), c);
        if r.result.Ok? then PostfixedStep(r.result.value, E.Get(callee, toks[t]), callee); r else r
    else Parsed(Ok(callee), pos, c)
  }

  /** `finish_call`, entered with `(` at the head. */
  function FinishCall(callee: E.Expr, toks: seq<Token>, pos: nat, c: nat): (r: Parsed<E.Expr>)
    requires Valid(toks) && pos < |toks| && toks[pos].ttype == LeftParen
    ensures Advanced(toks, pos, c, r)
    ensures r.result.Ok? ==> r.result.value.Call? && r.result.value.callee == callee && |r.result.value.arguments| <= MaxArguments
    decreases |toks| - pos, 2
  {
    var t := Advance(toks, pos);
    if toks[t].ttype == RightParen then Parsed(Ok(E.Call(callee, toks[t], [])), Advance(toks, t), c)
    else
      var a := Arguments(MaxArguments + 1, [], toks, t, c);
      if a.result.Err? then Propagate(a)
      else Parsed(Ok(E.Call(callee, toks[a.pos], a.result.value)), Advance(toks, a.pos), a.counter)
  }

  /** The most arguments a call may pass, as the error message says. */
  const MaxArguments := 255

  /**
   * The argument loop of `finish_call`.  It refuses the list once it holds
   * `cap` arguments and stops with `)` at the head.  The source refuses at
   * 255 arguments (see `ArgumentsAsWritten`); the model uses
   * `MaxArguments + 1`, so that a call may pass `MaxArguments` arguments.
   */
  function Arguments(cap: nat, args: seq<E.Expr>, toks: seq<Token>, pos: nat, c: nat): (r: Parsed<seq<E.Expr>>)
    requires Valid(toks) && pos < |toks| && |args| < cap
    ensures Advanced(toks, pos, c, r)
    ensures r.result.Ok? ==> toks[r.pos].ttype == RightParen && |r.result.value| < cap
    decreases |toks| - pos, 21
  {
    var x := Expression(toks, pos, c);
    if x.result.Err? then Propagate(x)
    else
      var more := args + [x.result.value];
      if |more| >= cap then Fail(toks, x.pos, "Function can't have more than 255 arguments.", x.counter)
      else if toks[x.pos].ttype !in {RightParen, Comma} then Fail(toks, x.pos, "Invalid expression call.", x.counter)
      else if toks[x.pos].ttype == RightParen then Parsed(Ok(more), x.pos, x.counter)
      else Arguments(cap, more, toks, Advance(toks, x.pos), x.counter)
  }

  /** The argument loop exactly as src/parser.rs:545-565 writes it: the check `>= 255` follows the push. */
  function ArgumentsAsWritten(args: seq<E.Expr>, toks: seq<Token>, pos: nat, c: nat): (r: Parsed<seq<E.Expr>>)
    requires Valid(toks) && pos < |toks| && |args| < 255
    ensures r.result.Ok? ==> |r.result.value| < 255
  {
    Arguments(255, args, toks, pos, c)
  }

  /**
   * Finding: with 254 arguments collected, a 255th argument followed by `)`
   * is refused as written, though the message only forbids more than 255;
   * the corrected loop accepts it, and still refuses a 256th.
   */
  lemma ArgumentLimit(args: seq<E.Expr>, toks: seq<Token>, pos: nat, c: nat)
    requires Valid(toks) && pos < |toks| && |args| == 254
    requires Expression(toks, pos, c).result.Ok? && toks[Expression(toks, pos, c).pos].ttype == RightParen
    ensures ArgumentsAsWritten(args, toks, pos, c).result ==
              Err(ParseError(toks[Expression(toks, pos, c).pos].line, "Function can't have more than 255 arguments."))
    ensures Arguments(MaxArguments + 1, args, toks, pos, c).result == Ok(args + [Expression(toks, pos, c).result.value])
  {
    var x := Expression(toks, pos, c);
    assert Arguments(255, args, toks, pos, c) == Fail(toks, x.pos, "Function can't have more than 255 arguments.", x.counter);
    assert Arguments(MaxArguments + 1, args, toks, pos, c) == Parsed(Ok(args + [x.result.value]), x.pos, x.counter);
  }

  function Primary(toks: seq<Token>, pos: nat, c: nat): (r: Parsed<E.Expr>)
    requires Valid(toks) && pos < |toks|
    ensures Advanced(toks, pos, c, r)
    decreases |toks| - pos, 1
  {
    var head := toks[pos];
    if head.ttype == False then Parsed(Ok(E.Literal(Bool(false))), Advance(toks, pos), c)
    else if head.ttype == True then Parsed(Ok(E.Literal(Bool(true))), Advance(toks, pos), c)
    else if head.ttype == Nil then Parsed(Ok(E.Literal(BasicType.None)), Advance(toks, pos), c)
    else if head.ttype in {TokenType.Number, TokenType.String} then
      Parsed(Ok(E.Literal(head.lexeme.value)), Advance(toks, pos), c)
    else if head.ttype == LeftParen then Grouping(toks, pos, c)
    else if head.ttype == This then Parsed(Ok(E.This(head, c)), Advance(toks, pos), c + 1)
    else if head.ttype == Super then SuperAccess(toks, pos, c)
    else if head.ttype == Identifier then Parsed(Ok(E.Variable(head, c)), Advance(toks, pos), c + 1)
    else Fail(toks, pos, "Uncorrected matching.", c)
  }

  /** The `(` case of `primary`. */
  function Grouping(toks: seq<Token>, pos: nat, c: nat): (r: Parsed<E.Expr>)
    requires Valid(toks) && pos < |toks| && toks[pos].ttype == LeftParen
    ensures Advanced(toks, pos, c, r)
    decreases |toks| - pos, 0
  {
    var x := Expression(toks, Advance(toks, pos), c);
    if x.result.Err? then x
    else if toks[x.pos].ttype != RightParen then Fail(toks, x.pos, "Expect ')' after expression.", x.counter)
    else Parsed(Ok(E.Grouping(x.result.value)), Advance(toks, x.pos), x.counter)
  }

  /** The `super` case of `primary`: `super . name`. */
  function SuperAccess(toks: seq<Token>, pos: nat, c: nat): (r: Parsed<E.Expr>)
    requires Valid(toks) && pos < |toks| && toks[pos].ttype == Super
    ensures Advanced(toks, pos, c, r) && AtLevel(r, 8)
  {
    var t := Advance(toks, pos);
    if toks[t].ttype != Dot then Fail(toks, t, "Expect . after super.", c)
    else
      var t2 := Advance(toks, t);
      if toks[t2].ttype != Identifier then Fail(toks, t2, "Not an identifier after super.", c)
      else Parsed(Ok(E.Super(toks[pos], toks[t2], c)), Advance(toks, t2), c + 1)
  }
  // ---------------------------------------------------------------------
  // Precedence and associativity: every successful parse of a rule of
  // level k is an `Associated` tree of level at least k.  The lemmas follow
  // the rules' own recursion.
  // ---------------------------------------------------------------------

  lemma {:induction false} ExpressionLevel(toks: seq<Token>, pos: nat, c: nat)
    requires Valid(toks) && pos < |toks|
    ensures AtLevel(Expression(toks, pos, c), 1)
    decreases |toks| - pos, 19
  {
    AssignmentLevel(toks, pos, c);
  }

  lemma {:induction false} AssignmentLevel(toks: seq<Token>, pos: nat, c: nat)
    requires Valid(toks) && pos < |toks|
    ensures AtLevel(Assignment(toks, pos, c), 1)
    decreases |toks| - pos, 18
  {
    OrLevel(toks, pos, c);
    var o := Or(toks, pos, c);
    if o.result.Ok? && toks[o.pos].ttype == TokenType.Equal {
      AssignToLevel(o.result.value, toks, Advance(toks, o.pos), o.counter);
    }
  }

  lemma {:induction false} AssignToLevel(target: E.Expr, toks: seq<Token>, pos: nat, c: nat)
    requires Valid(toks) && pos < |toks| && Associated(target)
    ensures AtLevel(AssignTo(target, toks, pos, c), 1)
    decreases |toks| - pos, 20
  {
    if target.Variable? || target.Get? {
      AssignmentLevel(toks, pos, c);
    }
  }

  lemma {:induction false} OrLevel(toks: seq<Token>, pos: nat, c: nat)
    requires Valid(toks) && pos < |toks|
    ensures AtLevel(Or(toks, pos, c), 2)
    decreases |toks| - pos, 17
  {
    AndLevel(toks, pos, c);
    var l := And(toks, pos, c);
    if l.result.Ok? {
      OrRestLevel(l.result.value, toks, l.pos, l.counter);
    }
  }

  lemma {:induction false} OrRestLevel(left: E.Expr, toks: seq<Token>, pos: nat, c: nat)
    requires Valid(toks) && pos < |toks| && Level(left) >= 2 && Associated(left)
    ensures AtLevel(OrRest(left, toks, pos, c), 2)
    decreases |toks| - pos, 16
  {
    if toks[pos].ttype == TokenType.Or {
      AndLevel(toks, Advance(toks, pos), c);
      var x := And(toks, Advance(toks, pos), c);
      if x.result.Ok? {
        OrRestLevel(E.Logical(left, toks[pos], x.result.value), toks, x.pos, x.counter);
      }
    }
  }

  lemma {:induction false} AndLevel(toks: seq<Token>, pos: nat, c: nat)
    requires Valid(toks) && pos < |toks|
    ensures AtLevel(And(toks, pos, c), 3)
    decreases |toks| - pos, 15
  {
    EqualityLevel(toks, pos, c);
    var l := Equality(toks, pos, c);
    if l.result.Ok? {
      AndRestLevel(l.result.value, toks, l.pos, l.counter);
    }
  }

  lemma {:induction false} AndRestLevel(left: E.Expr, toks: seq<Token>, pos: nat, c: nat)
    requires Valid(toks) && pos < |toks| && Level(left) >= 3 && Associated(left)
    ensures AtLevel(AndRest(left, toks, pos, c), 3)
    decreases |toks| - pos, 14
  {
    if toks[pos].ttype == TokenType.And {
      EqualityLevel(toks, Advance(toks, pos), c);
      var x := Equality(toks, Advance(toks, pos), c);
      if x.result.Ok? {
        AndRestLevel(E.Logical(left, toks[pos], x.result.value), toks, x.pos, x.counter);
      }
    }
  }

  lemma {:induction false} EqualityLevel(toks: seq<Token>, pos: nat, c: nat)
    requires Valid(toks) && pos < |toks|
    ensures AtLevel(Equality(toks, pos, c), 4)
    decreases |toks| - pos, 13
  {
    ComparisonLevel(toks, pos, c);
    var l := Comparison(toks, pos, c);
    if l.result.Ok? {
      EqualityRestLevel(l.result.value, toks, l.pos, l.counter);
    }
  }

  lemma {:induction false} EqualityRestLevel(left: E.Expr, toks: seq<Token>, pos: nat, c: nat)
    requires Valid(toks) && pos < |toks| && Level(left) >= 4 && Associated(left)
    ensures AtLevel(EqualityRest(left, toks, pos, c), 4)
    decreases |toks| - pos, 12
  {
    if toks[pos].ttype in {BangEqual, EqualEqual} {
      ComparisonLevel(toks, Advance(toks, pos), c);
      var x := Comparison(toks, Advance(toks, pos), c);
      if x.result.Ok? {
        EqualityRestLevel(E.Binary(left, toks[pos], x.result.value), toks, x.pos, x.counter);
      }
    }
  }

  lemma {:induction false} ComparisonLevel(toks: seq<Token>, pos: nat, c: nat)
    requires Valid(toks) && pos < |toks|
    ensures AtLevel(Comparison(toks, pos, c), 5)
    decreases |toks| - pos, 11
  {
    TermLevel(toks, pos, c);
    var l := Term(toks, pos, c);
    if l.result.Ok? {
      ComparisonRestLevel(l.result.value, toks, l.pos, l.counter);
    }
  }

  lemma {:induction false} ComparisonRestLevel(left: E.Expr, toks: seq<Token>, pos: nat, c: nat)
    requires Valid(toks) && pos < |toks| && Level(left) >= 5 && Associated(left)
    ensures AtLevel(ComparisonRest(left, toks, pos, c), 5)
    decreases |toks| - pos, 10
  {
    if toks[pos].ttype in {Greater, GreaterEqual, Less, LessEqual} {
      TermLevel(toks, Advance(toks, pos), c);
      var x := Term(toks, Advance(toks, pos), c);
      if x.result.Ok? {
        ComparisonRestLevel(E.Binary(left, toks[pos], x.result.value), toks, x.pos, x.counter);
      }
    }
  }

  lemma {:induction false} TermLevel(toks: seq<Token>, pos: nat, c: nat)
    requires Valid(toks) && pos < |toks|
    ensures AtLevel(Term(toks, pos, c), 6)
    decreases |toks| - pos, 9
  {
    FactorLevel(toks, pos, c);
    var l := Factor(toks, pos, c);
    if l.result.Ok? {
      TermRestLevel(l.result.value, toks, l.pos, l.counter);
    }
  }

  lemma {:induction false} TermRestLevel(left: E.Expr, toks: seq<Token>, pos: nat, c: nat)
    requires Valid(toks) && pos < |toks| && Level(left) >= 6 && Associated(left)
    ensures AtLevel(TermRest(left, toks, pos, c), 6)
    decreases |toks| - pos, 8
  {
    if toks[pos].ttype in {Plus, Minus} {
      FactorLevel(toks, Advance(toks, pos), c);
      var x := Factor(toks, Advance(toks, pos), c);
      if x.result.Ok? {
        TermRestLevel(E.Binary(left, toks[pos], x.result.value), toks, x.pos, x.counter);
      }
    }
  }

  lemma {:induction false} FactorLevel(toks: seq<Token>, pos: nat, c: nat)
    requires Valid(toks) && pos < |toks|
    ensures AtLevel(Factor(toks, pos, c), 7)
    decreases |toks| - pos, 7
  {
    UnaryLevel(toks, pos, c);
    var l := Unary(toks, pos, c);
    if l.result.Ok? {
      FactorRestLevel(l.result.value, toks, l.pos, l.counter);
    }
  }

  lemma {:induction false} FactorRestLevel(left: E.Expr, toks: seq<Token>, pos: nat, c: nat)
    requires Valid(toks) && pos < |toks| && Level(left) >= 7 && Associated(left)
    ensures AtLevel(FactorRest(left, toks, pos, c), 7)
    decreases |toks| - pos, 6
  {
    if toks[pos].ttype in {Slash, Star} {
      UnaryLevel(toks, Advance(toks, pos), c);
      var x := Unary(toks, Advance(toks, pos), c);
      if x.result.Ok? {
        FactorRestLevel(E.Binary(left, toks[pos], x.result.value), toks, x.pos, x.counter);
      }
    }
  }

  lemma {:induction false} UnaryLevel(toks: seq<Token>, pos: nat, c: nat)
    requires Valid(toks) && pos < |toks|
    ensures AtLevel(Unary(toks, pos, c), 8)
    decreases |toks| - pos, 5
  {
    if toks[pos].ttype in {Bang, Minus} {
      UnaryLevel(toks, Advance(toks, pos), c);
    } else {
      CallLevel(toks, pos, c);
    }
  }

  lemma {:induction false} CallLevel(toks: seq<Token>, pos: nat, c: nat)
    requires Valid(toks) && pos < |toks|
    ensures AtLevel(Call(toks, pos, c), 8)
    decreases |toks| - pos, 4
  {
    PrimaryLevel(toks, pos, c);
    var p := Primary(toks, pos, c);
    if p.result.Ok? {
      CallRestLevel(p.result.value, toks, p.pos, p.counter);
    }
  }

  lemma {:induction false} CallRestLevel(callee: E.Expr, toks: seq<Token>, pos: nat, c: nat)
    requires Valid(toks) && pos < |toks| && Level(callee) == 8 && Associated(callee)
    ensures AtLevel(CallRest(callee, toks, pos, c), 8)
    decreases |toks| - pos, 3
  {
    if toks[pos].ttype == LeftParen {
      FinishCallLevel(callee, toks, pos, c);
      var f := FinishCall(callee, toks, pos, c);
      if f.result.Ok? {
        CallRestLevel(f.result.value, toks, f.pos, f.counter);
      }
    } else if toks[pos].ttype == Dot {
      var t := Advance(toks, pos);
      if toks[t].ttype == Identifier {
        CallRestLevel(E.Get(callee, toks[t]), toks, Advance(toks, t), c);
      }
    }
  }

  lemma {:induction false} FinishCallLevel(callee: E.Expr, toks: seq<Token>, pos: nat, c: nat)
    requires Valid(toks) && pos < |toks| && toks[pos].ttype == LeftParen && Level(callee) == 8 && Associated(callee)
    ensures AtLevel(FinishCall(callee, toks, pos, c), 8)
    decreases |toks| - pos, 2
  {
    var t := Advance(toks, pos);
    if toks[t].ttype != RightParen {
      ArgumentsAssociated(MaxArguments + 1, [], toks, t, c);
    }
  }

  lemma {:induction false} ArgumentsAssociated(cap: nat, args: seq<E.Expr>, toks: seq<Token>, pos: nat, c: nat)
    requires Valid(toks) && pos < |toks| && |args| < cap && forall a :: a in args ==> Associated(a)
    ensures var r := Arguments(cap, args, toks, pos, c);
      r.result.Ok? ==> forall a :: a in r.result.value ==> Associated(a)
    decreases |toks| - pos, 21
  {
    ExpressionLevel(toks, pos, c);
    var x := Expression(toks, pos, c);
    if x.result.Ok? {
      var more := args + [x.result.value];
      if |more| < cap && toks[x.pos].ttype == Comma {
        ArgumentsAssociated(cap, more, toks, Advance(toks, x.pos), x.counter);
      }
    }
  }

  lemma {:induction false} PrimaryLevel(toks: seq<Token>, pos: nat, c: nat)
    requires Valid(toks) && pos < |toks|
    ensures AtLevel(Primary(toks, pos, c), 8)
    decreases |toks| - pos, 1
  {
    if toks[pos].ttype == LeftParen {
      ExpressionLevel(toks, Advance(toks, pos), c);
    }
  }
}
