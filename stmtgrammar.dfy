// Statements, declarations, error recovery and the driver of the
// tree-walking parser (src/parser.rs), in the style of grammar.dfy.

module StmtGrammar {
  import opened Wrappers
  import opened Token
  import E = Exprs
  import S = Stmts
  import opened Grammar

  /** A parse that always consumes at least one token. */
  predicate Consumed<T>(toks: seq<Token>, pos: nat, c: nat, r: Parsed<T>) {
    Moved(toks, pos, c, r) && r.pos > pos
  }

  /** The keywords that start a statement of their own, which `synchronize` stops at. */
  const StatementKeywords: set<TokenType> :=
    {TokenType.Class, Fun, TokenType.Var, TokenType.If, TokenType.While, TokenType.Print, TokenType.Return}

  function Declaration(toks: seq<Token>, pos: nat, c: nat): (r: Parsed<S.Stmt>)
    requires Valid(toks) && pos < |toks|
    ensures Advanced(toks, pos, c, r)
    ensures toks[pos].ttype in StatementKeywords ==> r.pos > pos
    decreases |toks| - pos, 50
  {
    if toks[pos].ttype == TokenType.Class then ClassDeclaration(toks, pos, c)
    else if toks[pos].ttype == Fun then FunctionDeclaration(toks, pos, c)
    else if toks[pos].ttype == TokenType.Var then VarDeclaration(toks, pos, c)
    else Statement(toks, pos, c)
  }

  /** `class_declaration`, entered with `class` at the head. */
  function ClassDeclaration(toks: seq<Token>, pos: nat, c: nat): (r: Parsed<S.Stmt>)
    requires Valid(toks) && pos < |toks| && toks[pos].ttype == TokenType.Class
    ensures Consumed(toks, pos, c, r)
    decreases |toks| - pos, 49
  {
    var t := Advance(toks, pos);
    if toks[t].ttype != Identifier then Fail(toks, t, "Invalid token for class name", c)
    else
      var s := Superclass(toks, Advance(toks, t), c);
      if s.result.Err? then Propagate(s) else ClassBody(toks[t], s.result.value, toks, s.pos, s.counter)
  }

  /** The optional `< name` of a class declaration; the name becomes a variable with a fresh id. */
  function Superclass(toks: seq<Token>, pos: nat, c: nat): (r: Parsed<Option<E.Expr>>)
    requires Valid(toks) && pos < |toks|
    ensures Moved(toks, pos, c, r)
    ensures r.result.Ok? && r.result.value.Some? ==>
              r.pos == pos + 2 && r.counter == c + 1 && r.result.value.value == E.Variable(toks[pos + 1], c)
  {
    if toks[pos].ttype != Less then Parsed(Ok(Option.None), pos, c)
    else
      var t := Advance(toks, pos);
      if toks[t].ttype != Identifier then Fail(toks, t, "Invalid superclass name", c)
      else Parsed(Ok(Some(E.Variable(toks[t], c))), Advance(toks, t), c + 1)
  }

  /** The `{ method* }` part of a class declaration. */
  function ClassBody(name: Token, superclass: Option<E.Expr>, toks: seq<Token>, pos: nat, c: nat): (r: Parsed<S.Stmt>)
    requires Valid(toks) && pos < |toks|
    ensures Moved(toks, pos, c, r)
    decreases |toks| - pos, 48
  {
    if toks[pos].ttype != LeftBrace then Fail(toks, pos, "Expect '{{' before class body", c)
    else
      var m := Methods([], toks, Advance(toks, pos), c);
      if m.result.Err? then Propagate(m)
      else Parsed(Ok(S.Class(name, superclass, m.result.value)), Advance(toks, m.pos), m.counter)
  }

  /** The method loop of a class body; it stops with `}` at the head. */
  function Methods(ms: seq<S.Stmt>, toks: seq<Token>, pos: nat, c: nat): (r: Parsed<seq<S.Stmt>>)
    requires Valid(toks) && pos < |toks|
    ensures Moved(toks, pos, c, r)
    ensures r.result.Ok? ==> toks[r.pos].ttype == RightBrace
    decreases |toks| - pos, 45
  {
    if toks[pos].ttype == RightBrace then Parsed(Ok(ms), pos, c)
    else
      var f := Function(toks, pos, c);
      if f.result.Err? then Propagate(f)
      else Methods(ms + [f.result.value], toks, f.pos, f.counter)
  }

  /** `function_declaration`: `fun` followed by a function. */
  function FunctionDeclaration(toks: seq<Token>, pos: nat, c: nat): (r: Parsed<S.Stmt>)
    requires Valid(toks) && pos < |toks| && toks[pos].ttype == Fun
    ensures Consumed(toks, pos, c, r)
    decreases |toks| - pos, 47
  {
    Function(toks, Advance(toks, pos), c)
  }

  /** `function`: a name, a parameter list and a block. */
  function Function(toks: seq<Token>, pos: nat, c: nat): (r: Parsed<S.Stmt>)
    requires Valid(toks) && pos < |toks|
    ensures Advanced(toks, pos, c, r)
    decreases |toks| - pos, 44
  {
    if toks[pos].ttype != Identifier then Fail(toks, pos, "Invalid token for function name.", c)
    else
      var p := Parameters(toks, Advance(toks, pos), c);
      if p.result.Err? then Propagate(p) else FunctionBody(toks[pos], p.result.value, toks, p.pos, c)
  }

  /** The parenthesised parameter list of `function`, `(` and `)` included. */
  function Parameters(toks: seq<Token>, pos: nat, c: nat): (r: Parsed<seq<Token>>)
    requires Valid(toks) && pos < |toks|
    ensures Moved(toks, pos, c, r) && r.counter == c
    ensures r.result.Ok? ==> r.pos >= pos + 2 && toks[r.pos - 1].ttype == RightParen && |r.result.value| <= 255
  {
    if toks[pos].ttype != LeftParen then Fail(toks, pos, "Expect ( for function arguments.", c)
    else
      var p := ParamList(toks, Advance(toks, pos), c);
      if p.result.Err? then p else Parsed(p.result, Advance(toks, p.pos), c)
  }

  /** The parameter list of `function`: empty when `)` is at the head, else the parameter loop. */
  function ParamList(toks: seq<Token>, pos: nat, c: nat): (r: Parsed<seq<Token>>)
    requires Valid(toks) && pos < |toks|
    ensures Moved(toks, pos, c, r) && r.counter == c
    ensures r.result.Ok? ==> toks[r.pos].ttype == RightParen && |r.result.value| <= 255
  {
    if toks[pos].ttype == RightParen then Parsed(Ok([]), pos, c) else Params([], toks, pos, c)
  }

  /** The parameter loop of `function`, which refuses a 256th parameter; it stops with `)` at the head. */
  function Params(ps: seq<Token>, toks: seq<Token>, pos: nat, c: nat): (r: Parsed<seq<Token>>)
    requires Valid(toks) && pos < |toks| && |ps| <= 255
    ensures Moved(toks, pos, c, r) && r.counter == c
    ensures r.result.Ok? ==> toks[r.pos].ttype == RightParen && |r.result.value| <= 255
    decreases |toks| - pos
  {
    if |ps| >= 255 then Fail(toks, pos, "Arguments of function exceed 255.", c)
    else if toks[pos].ttype != Identifier then Fail(toks, pos, "Invalid name for arguments.", c)
    else
      var more := ps + [toks[pos]];
      var t := Advance(toks, pos);
      if toks[t].ttype !in {RightParen, Comma} then Fail(toks, t, "Invalid function definition", c)
      else if toks[t].ttype == RightParen then Parsed(Ok(more), t, c)
      else Params(more, toks, Advance(toks, t), c)
  }

  /** The body block of `function`. */
  function FunctionBody(name: Token, params: seq<Token>, toks: seq<Token>, pos: nat, c: nat): (r: Parsed<S.Stmt>)
    requires Valid(toks) && pos < |toks|
    ensures Moved(toks, pos, c, r)
    decreases |toks| - pos, 43
  {
    if toks[pos].ttype != LeftBrace then Fail(toks, pos, "Expect '{{' for function body", c)
    else
      var b := Block(toks, pos, c);
      if b.result.Err? then Propagate(b) else Parsed(Ok(S.Function(name, params, b.result.value)), b.pos, b.counter)
  }

  /** `var_declaration`, entered with `var` at the head. */
  function VarDeclaration(toks: seq<Token>, pos: nat, c: nat): (r: Parsed<S.Stmt>)
    requires Valid(toks) && pos < |toks| && toks[pos].ttype == TokenType.Var
    ensures Consumed(toks, pos, c, r)
    decreases |toks| - pos, 47
  {
    var t := Advance(toks, pos);
    if toks[t].ttype != Identifier then Fail(toks, t, "Expect an identifier.", c)
    else
      var i := Initializer(toks, Advance(toks, t), c);
      if i.result.Err? then Propagate(i) else VarEnd(toks[t], i.result.value, toks, i.pos, i.counter)
  }

  /** The optional `= expression` of a `var` declaration. */
  function Initializer(toks: seq<Token>, pos: nat, c: nat): (r: Parsed<Option<E.Expr>>)
    requires Valid(toks) && pos < |toks|
    ensures Moved(toks, pos, c, r)
    ensures r.result.Ok? && r.result.value.Some? ==> r.pos >= pos + 2 && toks[pos].ttype == TokenType.Equal
    decreases |toks| - pos, 35
  {
    if toks[pos].ttype != TokenType.Equal then Parsed(Ok(Option.None), pos, c)
    else
      var x := Expression(toks, Advance(toks, pos), c);
      if x.result.Err? then Propagate(x) else Parsed(Ok(Some(x.result.value)), x.pos, x.counter)
  }

  /** The `;` that ends a `var` declaration. */
  function VarEnd(name: Token, initializer: Option<E.Expr>, toks: seq<Token>, pos: nat, c: nat): (r: Parsed<S.Stmt>)
    requires Valid(toks) && pos < |toks|
    ensures Moved(toks, pos, c, r)
  {
    if toks[pos].ttype == Semicolon then Parsed(Ok(S.Var(name, initializer)), Advance(toks, pos), c)
    else Fail(toks, pos, "Expect ';' after expression : Declaration.", c)
  }

  function Statement(toks: seq<Token>, pos: nat, c: nat): (r: Parsed<S.Stmt>)
    requires Valid(toks) && pos < |toks|
    ensures Advanced(toks, pos, c, r)
    ensures toks[pos].ttype in {TokenType.If, TokenType.While, TokenType.Print, TokenType.Return} ==> r.pos > pos
    decreases |toks| - pos, 46
  {
    if toks[pos].ttype == TokenType.If then IfStatement(toks, pos, c)
    else if toks[pos].ttype == TokenType.Print then PrintStatement(toks, pos, c)
    else if toks[pos].ttype == TokenType.Return then ReturnStatement(toks, pos, c)
    else if toks[pos].ttype == TokenType.While then WhileStatement(toks, pos, c)
    else if toks[pos].ttype == LeftBrace then BlockStatement(toks, pos, c)
    else ExpressionStatement(toks, pos, c)
  }

  /** `block_statement`. */
  function BlockStatement(toks: seq<Token>, pos: nat, c: nat): (r: Parsed<S.Stmt>)
    requires Valid(toks) && pos < |toks| && toks[pos].ttype == LeftBrace
    ensures Consumed(toks, pos, c, r)
    decreases |toks| - pos, 42
  {
    var b := Block(toks, pos, c);
    if b.result.Err? then Propagate(b) else Parsed(Ok(S.Block(b.result.value)), b.pos, b.counter)
  }

  /** `block`, entered with `{` at the head. */
  function Block(toks: seq<Token>, pos: nat, c: nat): (r: Parsed<seq<S.Stmt>>)
    requires Valid(toks) && pos < |toks| && toks[pos].ttype == LeftBrace
    ensures Consumed(toks, pos, c, r)
    decreases |toks| - pos, 36
  {
    BlockBody([], toks, Advance(toks, pos), c)
  }

  /** The declaration loop of `block`: it runs to `}` or the end of input. */
  function BlockBody(stmts: seq<S.Stmt>, toks: seq<Token>, pos: nat, c: nat): (r: Parsed<seq<S.Stmt>>)
    requires Valid(toks) && pos < |toks|
    ensures Moved(toks, pos, c, r)
    decreases |toks| - pos, 51
  {
    if toks[pos].ttype == RightBrace then Parsed(Ok(stmts), Advance(toks, pos), c)
    else if toks[pos].ttype == Eof then Fail(toks, pos, "No matching } for block.", c)
    else
      var d := Declaration(toks, pos, c);
      if d.result.Err? then Propagate(d) else BlockBody(stmts + [d.result.value], toks, d.pos, d.counter)
  }

  /** `if_statement`, entered with `if` at the head. */
  function IfStatement(toks: seq<Token>, pos: nat, c: nat): (r: Parsed<S.Stmt>)
    requires Valid(toks) && pos < |toks| && toks[pos].ttype == TokenType.If
    ensures Consumed(toks, pos, c, r)
    decreases |toks| - pos, 41
  {
    var x := Condition("if", toks, Advance(toks, pos), c);
    if x.result.Err? then Propagate(x) else IfBranches(x.result.value, toks, x.pos, x.counter)
  }

  /** The parenthesised condition of an `if` or a `while` (named by `keyword` in the messages). */
  function Condition(keyword: string, toks: seq<Token>, pos: nat, c: nat): (r: Parsed<E.Expr>)
    requires Valid(toks) && pos < |toks|
    ensures Moved(toks, pos, c, r)
    ensures r.result.Ok? ==> r.pos >= pos + 3 && toks[r.pos - 1].ttype == RightParen && toks[pos].ttype == LeftParen
    decreases |toks| - pos, 35
  {
    if toks[pos].ttype != LeftParen then Fail(toks, pos, "No ( after " + keyword + ".", c)
    else
      var x := Expression(toks, Advance(toks, pos), c);
      if x.result.Err? then x
      else if toks[x.pos].ttype != RightParen then Fail(toks, x.pos, "No ) after " + keyword + ".", x.counter)
      else Parsed(x.result, Advance(toks, x.pos), x.counter)
  }

  /** The branches of an `if`: a statement and an optional `else` statement. */
  function IfBranches(condition: E.Expr, toks: seq<Token>, pos: nat, c: nat): (r: Parsed<S.Stmt>)
    requires Valid(toks) && pos < |toks|
    ensures Moved(toks, pos, c, r)
    decreases |toks| - pos, 47
  {
    var th := Statement(toks, pos, c);
    if th.result.Err? then Propagate(th)
    else if toks[th.pos].ttype != Else then Parsed(Ok(S.If(condition, th.result.value, Option.None)), th.pos, th.counter)
    else
      var el := Statement(toks, Advance(toks, th.pos), th.counter);
      if el.result.Err? then Propagate(el)
      else Parsed(Ok(S.If(condition, th.result.value, Some(el.result.value))), el.pos, el.counter)
  }

  /** `return_statement`, entered with `return` at the head. */
  function ReturnStatement(toks: seq<Token>, pos: nat, c: nat): (r: Parsed<S.Stmt>)
    requires Valid(toks) && pos < |toks| && toks[pos].ttype == TokenType.Return
    ensures Consumed(toks, pos, c, r)
    decreases |toks| - pos, 39
  {
    var t := Advance(toks, pos);
    if toks[t].ttype == Semicolon then Parsed(Ok(S.Return(toks[pos], Option.None)), Advance(toks, t), c)
    else
      var x := Expression(toks, t, c);
      if x.result.Err? then Propagate(x)
      else if toks[x.pos].ttype != Semicolon then Fail(toks, x.pos, "Expect ';' after return.", x.counter)
      else Parsed(Ok(S.Return(toks[pos], Some(x.result.value))), Advance(toks, x.pos), x.counter)
  }

  /** `while_statement`, entered with `while` at the head. */
  function WhileStatement(toks: seq<Token>, pos: nat, c: nat): (r: Parsed<S.Stmt>)
    requires Valid(toks) && pos < |toks| && toks[pos].ttype == TokenType.While
    ensures Consumed(toks, pos, c, r)
    decreases |toks| - pos, 38
  {
    var x := Condition("while", toks, Advance(toks, pos), c);
    if x.result.Err? then Propagate(x)
    else
      var b := Statement(toks, x.pos, x.counter);
      if b.result.Err? then Propagate(b)
      else Parsed(Ok(S.While(x.result.value, b.result.value)), b.pos, b.counter)
  }

  /** `print_statement`, entered with `print` at the head. */
  function PrintStatement(toks: seq<Token>, pos: nat, c: nat): (r: Parsed<S.Stmt>)
    requires Valid(toks) && pos < |toks| && toks[pos].ttype == TokenType.Print
    ensures Consumed(toks, pos, c, r)
    decreases |toks| - pos, 40
  {
    var x := Expression(toks, Advance(toks, pos), c);
    if x.result.Err? then Propagate(x)
    else if toks[x.pos].ttype != Semicolon then Fail(toks, x.pos, "Expect ';' after expression.", x.counter)
    else Parsed(Ok(S.Print(x.result.value)), Advance(toks, x.pos), x.counter)
  }

  function ExpressionStatement(toks: seq<Token>, pos: nat, c: nat): (r: Parsed<S.Stmt>)
    requires Valid(toks) && pos < |toks|
    ensures Advanced(toks, pos, c, r)
    decreases |toks| - pos, 37
  {
    var x := Expression(toks, pos, c);
    if x.result.Err? then Propagate(x)
    else if toks[x.pos].ttype != Semicolon then Fail(toks, x.pos, "Expect ';' after expression : Expression.", x.counter)
    else Parsed(Ok(S.Expression(x.result.value)), Advance(toks, x.pos), x.counter)
  }

  // ---------------------------------------------------------------------
  // Error recovery and the driver
  // ---------------------------------------------------------------------

  /** A token `synchronize` drops and moves past. */
  predicate Skippable(stops: set<TokenType>, t: Token) {
    t.ttype !in stops && t.ttype != Eof && t.ttype != Semicolon
  }

  /**
   * The loop of `synchronize` with the stop set `stops`: it drops tokens up
   * to and including a `;`, or up to a token of `stops` or `Eof`, which it
   * leaves at the head.
   */
  function Discard(stops: set<TokenType>, toks: seq<Token>, pos: nat): (r: nat)
    requires Valid(toks) && pos < |toks|
    ensures pos <= r < |toks|
    ensures forall i :: pos <= i < r - 1 ==> Skippable(stops, toks[i])
    ensures (r > pos && toks[r - 1].ttype == Semicolon) ||
            ((r == pos || Skippable(stops, toks[r - 1])) && (toks[r].ttype == Eof || toks[r].ttype in stops))
    decreases |toks| - pos
  {
    if toks[pos].ttype == Eof then pos
    else if toks[pos].ttype == Semicolon then pos + 1
    else if toks[pos].ttype in stops then pos
    else Discard(stops, toks, pos + 1)
  }

  /** `synchronize` as written: it also stops at `for`, which no parse function accepts. */
  function SynchronizeAsWritten(toks: seq<Token>, pos: nat): (r: nat)
    requires Valid(toks) && pos < |toks|
    ensures toks[pos].ttype == For ==> r == pos
  {
    Discard(StatementKeywords + {For}, toks, pos)
  }

  /** `synchronize` as the model uses it: it stops only at the keywords a declaration consumes. */
  function Synchronize(toks: seq<Token>, pos: nat): (r: nat)
    requires Valid(toks) && pos < |toks|
    ensures pos <= r < |toks|
    ensures Skippable(StatementKeywords, toks[pos]) ==> r > pos
  {
    Discard(StatementKeywords, toks, pos)
  }

  /**
   * The loop of `parser`: declarations up to `Eof`, each failure reported,
   * followed by `synchronize`, and remembered in `failed`.
   */
  function ParseFrom(stmts: seq<S.Stmt>, failed: bool, toks: seq<Token>, pos: nat, c: nat): (r: Parsed<seq<S.Stmt>>)
    requires Valid(toks) && pos < |toks|
    ensures pos <= r.pos < |toks| && toks[r.pos].ttype == Eof && r.counter >= c
    decreases |toks| - pos
  {
    if toks[pos].ttype == Eof then
      Parsed(if failed then Err(ParseError(0, "Interpretation stopped.")) else Ok(stmts), pos, c)
    else
      var d := Declaration(toks, pos, c);
      if d.result.Ok? then ParseFrom(stmts + [d.result.value], failed, toks, d.pos, d.counter)
      else ParseFrom(stmts, true, toks, Synchronize(toks, d.pos), d.counter)
  }

  /** `parser`: the whole token list, with the next fresh id `c`. */
  function Parse(toks: seq<Token>, c: nat): (r: Parsed<seq<S.Stmt>>)
    requires Valid(toks)
    ensures r.pos < |toks| && toks[r.pos].ttype == Eof
  {
    ParseFrom([], false, toks, 0, c)
  }

  /** The same loop with `SynchronizeAsWritten`, run for at most `fuel` declarations. */
  function ParseFromAsWritten(fuel: nat, stmts: seq<S.Stmt>, failed: bool, toks: seq<Token>, pos: nat, c: nat): (r: Option<Parsed<seq<S.Stmt>>>)
    requires Valid(toks) && pos < |toks|
    ensures r.Some? ==> r.value.pos < |toks| && toks[r.value.pos].ttype == Eof
    decreases fuel
  {
    if fuel == 0 then Option.None
    else if toks[pos].ttype == Eof then
      Some(Parsed(if failed then Err(ParseError(0, "Interpretation stopped.")) else Ok(stmts), pos, c))
    else
      var d := Declaration(toks, pos, c);
      if d.result.Ok? then ParseFromAsWritten(fuel - 1, stmts + [d.result.value], failed, toks, d.pos, d.counter)
      else ParseFromAsWritten(fuel - 1, stmts, true, toks, SynchronizeAsWritten(toks, d.pos), d.counter)
  }

  /** Declarations parsed one after another with no recovery: the first failure ends the list. */
  function Declarations(stmts: seq<S.Stmt>, toks: seq<Token>, pos: nat, c: nat): (r: Parsed<seq<S.Stmt>>)
    requires Valid(toks) && pos < |toks|
    decreases |toks| - pos
  {
    if toks[pos].ttype == Eof then Parsed(Ok(stmts), pos, c)
    else
      var d := Declaration(toks, pos, c);
      if d.result.Err? then Propagate(d) else Declarations(stmts + [d.result.value], toks, d.pos, d.counter)
  }

  // ---------------------------------------------------------------------
  // Properties
  // ---------------------------------------------------------------------

  /** The tokens an expression can start with. */
  const ExpressionStarts: set<TokenType> :=
    {Bang, Minus, False, True, Nil, TokenType.Number, TokenType.String, LeftParen, TokenType.This, TokenType.Super, Identifier}

  /**
   * A declaration starting with a token that starts no statement fails at
   * that token without consuming anything.
   */
  lemma DeclarationFailsInPlace(toks: seq<Token>, pos: nat, c: nat)
    requires Valid(toks) && pos < |toks|
    requires toks[pos].ttype !in StatementKeywords && toks[pos].ttype !in ExpressionStarts && toks[pos].ttype != LeftBrace
    ensures Declaration(toks, pos, c) == Parsed(Err(ParseError(toks[pos].line, "Uncorrected matching.")), pos, c)
  {
    var f: Parsed<E.Expr> := Fail(toks, pos, "Uncorrected matching.", c);
    assert Primary(toks, pos, c) == f;
    assert Call(toks, pos, c) == f;
    assert Unary(toks, pos, c) == f;
    assert Factor(toks, pos, c) == f;
    assert Term(toks, pos, c) == f;
    assert Comparison(toks, pos, c) == f;
    assert Equality(toks, pos, c) == f;
    assert Grammar.And(toks, pos, c) == f;
    assert Grammar.Or(toks, pos, c) == f;
    assert Assignment(toks, pos, c) == f;
    assert Expression(toks, pos, c) == f;
    assert ExpressionStatement(toks, pos, c) == Propagate(f);
    assert Statement(toks, pos, c) == Propagate(f);
  }

  /**
   * Finding: as written, the parser never finishes once a declaration starts
   * with `for`: the declaration fails without consuming it and
   * `synchronize` stops in front of it, so the loop repeats forever.
   */
  lemma {:induction false} ForNeverFinishes(fuel: nat, stmts: seq<S.Stmt>, failed: bool, toks: seq<Token>, pos: nat, c: nat)
    requires Valid(toks) && pos < |toks| && toks[pos].ttype == For
    ensures ParseFromAsWritten(fuel, stmts, failed, toks, pos, c).None?
    decreases fuel
  {
    if fuel > 0 {
      DeclarationFailsInPlace(toks, pos, c);
      ForNeverFinishes(fuel - 1, stmts, true, toks, pos, c);
    }
  }

  /**
   * `parser` returns an error exactly when some declaration failed, and
   * otherwise every declaration in order: it agrees with `Declarations`
   * whenever that succeeds and no failure happened before.
   */
  lemma {:induction false} ParseReportsFailure(stmts: seq<S.Stmt>, failed: bool, toks: seq<Token>, pos: nat, c: nat)
    requires Valid(toks) && pos < |toks|
    ensures ParseFrom(stmts, failed, toks, pos, c).result ==
              if failed || Declarations(stmts, toks, pos, c).result.Err? then Err(ParseError(0, "Interpretation stopped."))
              else Declarations(stmts, toks, pos, c).result
    decreases |toks| - pos
  {
    if toks[pos].ttype != Eof {
      var d := Declaration(toks, pos, c);
      if d.result.Ok? {
        ParseReportsFailure(stmts + [d.result.value], failed, toks, d.pos, d.counter);
      } else {
        FailedStaysFailed(stmts, toks, Synchronize(toks, d.pos), d.counter);
      }
    }
  }

  /** After one failure the driver's result is the error, whatever follows. */
  lemma {:induction false} FailedStaysFailed(stmts: seq<S.Stmt>, toks: seq<Token>, pos: nat, c: nat)
    requires Valid(toks) && pos < |toks|
    ensures ParseFrom(stmts, true, toks, pos, c).result == Err(ParseError(0, "Interpretation stopped."))
    decreases |toks| - pos
  {
    if toks[pos].ttype != Eof {
      var d := Declaration(toks, pos, c);
      if d.result.Ok? {
        FailedStaysFailed(stmts + [d.result.value], toks, d.pos, d.counter);
      } else {
        FailedStaysFailed(stmts, toks, Synchronize(toks, d.pos), d.counter);
      }
    }
  }

  /** With the corrected `synchronize`, a declaration starting with `for` is reported and parsing ends in an error. */
  lemma ForIsReported(stmts: seq<S.Stmt>, failed: bool, toks: seq<Token>, pos: nat, c: nat)
    requires Valid(toks) && pos < |toks| && toks[pos].ttype == For
    ensures Declaration(toks, pos, c).result.Err?
    ensures ParseFrom(stmts, failed, toks, pos, c).result == Err(ParseError(0, "Interpretation stopped."))
  {
    DeclarationFailsInPlace(toks, pos, c);
    FailedStaysFailed(stmts, toks, Synchronize(toks, pos), c);
  }
}
