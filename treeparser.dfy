// The recursive-descent parser of the tree-walking pipeline (src/parser.rs)
// as the source runs it: an object that pops tokens off the front of its
// queue and draws fresh node ids from a counter.  The queue is `tokens[pos..]`.
// Each method is proved to leave the parser where the matching function of
// grammar.dfy / stmtgrammar.dfy says, with the result that function gives.

module TreeParser {
  import opened Wrappers
  import opened Token
  import E = Exprs
  import S = Stmts
  import G = Grammar
  import SG = StmtGrammar

  type Outcome<T> = Result<T, G.ParseError>

  class Parser {
    const tokens: seq<Token>
    var pos: nat
    /** The next fresh node id (`COUNTER`). */
    var counter: nat

    /** The queue is well formed and not yet exhausted: `Eof` is still at its end. */
    predicate Valid()
      reads this
    {
      G.Valid(tokens) && pos < |tokens|
    }

    constructor (tokens: seq<Token>, counter: nat)
      requires G.Valid(tokens)
      ensures Valid() && this.tokens == tokens && pos == 0 && this.counter == counter
    {
      this.tokens := tokens;
      pos := 0;
      this.counter := counter;
    }

    /** `pop_front`, which the parse functions never apply to `Eof`. */
    method PopFront() returns (t: Token)
      requires Valid() && tokens[pos].ttype != Eof
      modifies this
      ensures Valid() && t == tokens[old(pos)] && pos == old(pos) + 1 && counter == old(counter)
    {
      t := tokens[pos];
      pos := pos + 1;
    }

    /** `get_count`: a fresh id. */
    method GetCount() returns (id: nat)
      modifies this
      ensures id == old(counter) && counter == old(counter) + 1 && pos == old(pos)
    {
      id := counter;
      counter := counter + 1;
    }

    /** The error the parse functions return at the current head. */
    method Error<T>(reason: string) returns (r: Outcome<T>)
      requires Valid()
      ensures G.Parsed(r, pos, counter) == G.Fail(tokens, pos, reason, counter)
    {
      r := Err(G.ParseError(tokens[pos].line, reason));
    }

    // -------------------------------------------------------------------
    // Expressions
    // -------------------------------------------------------------------

    method Expression() returns (r: Outcome<E.Expr>)
      requires Valid()
      modifies this
      ensures Valid() && G.Parsed(r, pos, counter) == G.Expression(tokens, old(pos), old(counter))
      decreases |tokens| - pos, 19
    {
      r := Assignment();
    }

    method Assignment() returns (r: Outcome<E.Expr>)
      requires Valid()
      modifies this
      ensures Valid() && G.Parsed(r, pos, counter) == G.Assignment(tokens, old(pos), old(counter))
      decreases |tokens| - pos, 18
    {
      var expr := Or();
      if expr.Err? || tokens[pos].ttype != TokenType.Equal {
        return expr;
      }
      var _ := PopFront();
      r := AssignTo(expr.value);
    }

    /** The right operand of `=` and the node it makes with `target`. */
    method AssignTo(target: E.Expr) returns (r: Outcome<E.Expr>)
      requires Valid()
      modifies this
      ensures Valid() && G.Parsed(r, pos, counter) == G.AssignTo(target, tokens, old(pos), old(counter))
      decreases |tokens| - pos, 20
    {
      match target
      case Variable(name, _) =>
        var value := Assignment();
        if value.Err? {
          return value;
        }
        var id := GetCount();
        r := Ok(E.Assign(name, value.value, id));
      case Get(obj, name) =>
        var value := Assignment();
        if value.Err? {
          return value;
        }
        r := Ok(E.Set(obj, name, value.value));
      case _ =>
        r := Error("Assign to something not assignable.");
    }

    method Or() returns (r: Outcome<E.Expr>)
      requires Valid()
      modifies this
      ensures Valid() && G.Parsed(r, pos, counter) == G.Or(tokens, old(pos), old(counter))
      decreases |tokens| - pos, 17
    {
      var left := And();
      if left.Err? {
        return left;
      }
      r := OrRest(left.value);
    }

    /** The operator loop of `or`, on the left operand `left`. */
    method OrRest(left: E.Expr) returns (r: Outcome<E.Expr>)
      requires Valid()
      modifies this
      ensures Valid() && G.Parsed(r, pos, counter) == G.OrRest(left, tokens, old(pos), old(counter))
      decreases |tokens| - pos, 16
    {
      var expr := left;
      while tokens[pos].ttype == TokenType.Or
        invariant Valid() && old(pos) <= pos
        invariant G.OrRest(left, tokens, old(pos), old(counter)) == G.OrRest(expr, tokens, pos, counter)
        decreases |tokens| - pos
      {
        var operator := PopFront();
        var right := And();
        if right.Err? {
          return right;
        }
        expr := E.Logical(expr, operator, right.value);
      }
      r := Ok(expr);
    }

    method And() returns (r: Outcome<E.Expr>)
      requires Valid()
      modifies this
      ensures Valid() && G.Parsed(r, pos, counter) == G.And(tokens, old(pos), old(counter))
      decreases |tokens| - pos, 15
    {
      var left := Equality();
      if left.Err? {
        return left;
      }
      r := AndRest(left.value);
    }

    /** The operator loop of `and`, on the left operand `left`. */
    method AndRest(left: E.Expr) returns (r: Outcome<E.Expr>)
      requires Valid()
      modifies this
      ensures Valid() && G.Parsed(r, pos, counter) == G.AndRest(left, tokens, old(pos), old(counter))
      decreases |tokens| - pos, 14
    {
      var expr := left;
      while tokens[pos].ttype == TokenType.And
        invariant Valid() && old(pos) <= pos
        invariant G.AndRest(left, tokens, old(pos), old(counter)) == G.AndRest(expr, tokens, pos, counter)
        decreases |tokens| - pos
      {
        var operator := PopFront();
        var right := Equality();
        if right.Err? {
          return right;
        }
        expr := E.Logical(expr, operator, right.value);
      }
      r := Ok(expr);
    }

    method Equality() returns (r: Outcome<E.Expr>)
      requires Valid()
      modifies this
      ensures Valid() && G.Parsed(r, pos, counter) == G.Equality(tokens, old(pos), old(counter))
      decreases |tokens| - pos, 13
    {
      var left := Comparison();
      if left.Err? {
        return left;
      }
      r := EqualityRest(left.value);
    }

    /** The operator loop of `equality`, on the left operand `left`. */
    method EqualityRest(left: E.Expr) returns (r: Outcome<E.Expr>)
      requires Valid()
      modifies this
      ensures Valid() && G.Parsed(r, pos, counter) == G.EqualityRest(left, tokens, old(pos), old(counter))
      decreases |tokens| - pos, 12
    {
      var expr := left;
      while tokens[pos].ttype in {BangEqual, EqualEqual}
        invariant Valid() && old(pos) <= pos
        invariant G.EqualityRest(left, tokens, old(pos), old(counter)) == G.EqualityRest(expr, tokens, pos, counter)
        decreases |tokens| - pos
      {
        var operator := PopFront();
        var right := Comparison();
        if right.Err? {
          return right;
        }
        expr := E.Binary(expr, operator, right.value);
      }
      r := Ok(expr);
    }

    method Comparison() returns (r: Outcome<E.Expr>)
      requires Valid()
      modifies this
      ensures Valid() && G.Parsed(r, pos, counter) == G.Comparison(tokens, old(pos), old(counter))
      decreases |tokens| - pos, 11
    {
      var left := Term();
      if left.Err? {
        return left;
      }
      r := ComparisonRest(left.value);
    }

    /** The operator loop of `comparison`, on the left operand `left`. */
    method ComparisonRest(left: E.Expr) returns (r: Outcome<E.Expr>)
      requires Valid()
      modifies this
      ensures Valid() && G.Parsed(r, pos, counter) == G.ComparisonRest(left, tokens, old(pos), old(counter))
      decreases |tokens| - pos, 10
    {
      var expr := left;
      while tokens[pos].ttype in {Greater, GreaterEqual, Less, LessEqual}
        invariant Valid() && old(pos) <= pos
        invariant G.ComparisonRest(left, tokens, old(pos), old(counter)) == G.ComparisonRest(expr, tokens, pos, counter)
        decreases |tokens| - pos
      {
        var operator := PopFront();
        var right := Term();
        if right.Err? {
          return right;
        }
        expr := E.Binary(expr, operator, right.value);
      }
      r := Ok(expr);
    }

    method Term() returns (r: Outcome<E.Expr>)
      requires Valid()
      modifies this
      ensures Valid() && G.Parsed(r, pos, counter) == G.Term(tokens, old(pos), old(counter))
      decreases |tokens| - pos, 9
    {
      var left := Factor();
      if left.Err? {
        return left;
      }
      r := TermRest(left.value);
    }

    /** The operator loop of `term`, on the left operand `left`. */
    method TermRest(left: E.Expr) returns (r: Outcome<E.Expr>)
      requires Valid()
      modifies this
      ensures Valid() && G.Parsed(r, pos, counter) == G.TermRest(left, tokens, old(pos), old(counter))
      decreases |tokens| - pos, 8
    {
      var expr := left;
      while tokens[pos].ttype in {Plus, Minus}
        invariant Valid() && old(pos) <= pos
        invariant G.TermRest(left, tokens, old(pos), old(counter)) == G.TermRest(expr, tokens, pos, counter)
        decreases |tokens| - pos
      {
        var operator := PopFront();
        var right := Factor();
        if right.Err? {
          return right;
        }
        expr := E.Binary(expr, operator, right.value);
      }
      r := Ok(expr);
    }

    method Factor() returns (r: Outcome<E.Expr>)
      requires Valid()
      modifies this
      ensures Valid() && G.Parsed(r, pos, counter) == G.Factor(tokens, old(pos), old(counter))
      decreases |tokens| - pos, 7
    {
      var left := Unary();
      if left.Err? {
        return left;
      }
      r := FactorRest(left.value);
    }

    /** The operator loop of `factor`, on the left operand `left`. */
    method FactorRest(left: E.Expr) returns (r: Outcome<E.Expr>)
      requires Valid()
      modifies this
      ensures Valid() && G.Parsed(r, pos, counter) == G.FactorRest(left, tokens, old(pos), old(counter))
      decreases |tokens| - pos, 6
    {
      var expr := left;
      while tokens[pos].ttype in {Slash, Star}
        invariant Valid() && old(pos) <= pos
        invariant G.FactorRest(left, tokens, old(pos), old(counter)) == G.FactorRest(expr, tokens, pos, counter)
        decreases |tokens| - pos
      {
        var operator := PopFront();
        var right := Unary();
        if right.Err? {
          return right;
        }
        expr := E.Binary(expr, operator, right.value);
      }
      r := Ok(expr);
    }

    method Unary() returns (r: Outcome<E.Expr>)
      requires Valid()
      modifies this
      ensures Valid() && G.Parsed(r, pos, counter) == G.Unary(tokens, old(pos), old(counter))
      decreases |tokens| - pos, 5
    {
      if tokens[pos].ttype in {Bang, Minus} {
        var operator := PopFront();
        var right := Unary();
        if right.Err? {
          return right;
        }
        r := Ok(E.Unary(operator, right.value));
      } else {
        r := Call();
      }
    }

    method Call() returns (r: Outcome<E.Expr>)
      requires Valid()
      modifies this
      ensures Valid() && G.Parsed(r, pos, counter) == G.Call(tokens, old(pos), old(counter))
      decreases |tokens| - pos, 4
    {
      var primary := Primary();
      if primary.Err? {
        return primary;
      }
      r := CallRest(primary.value);
    }

    /** The postfix loop of `call`: calls and property accesses on `callee`, left to right. */
    method CallRest(callee: E.Expr) returns (r: Outcome<E.Expr>)
      requires Valid()
      modifies this
      ensures Valid() && G.Parsed(r, pos, counter) == G.CallRest(callee, tokens, old(pos), old(counter))
      decreases |tokens| - pos, 3
    {
      var expr := callee;
      while true
        invariant Valid() && old(pos) <= pos
        invariant G.CallRest(callee, tokens, old(pos), old(counter)) == G.CallRest(expr, tokens, pos, counter)
        decreases |tokens| - pos
      {
        if tokens[pos].ttype == LeftParen {
          var call := FinishCall(expr);
          if call.Err? {
            return call;
          }
          expr := call.value;
        } else if tokens[pos].ttype == Dot {
          var _ := PopFront();
          if tokens[pos].ttype != Identifier {
            r := Error("Invalid class method.");
            return;
          }
          var name := PopFront();
          expr := E.Get(expr, name);
        } else {
          break;
        }
      }
      r := Ok(expr);
    }

    /** `finish_call`, with the argument limit as the model corrects it (see `G.Arguments`). */
    method FinishCall(callee: E.Expr) returns (r: Outcome<E.Expr>)
      requires Valid() && tokens[pos].ttype == LeftParen
      modifies this
      ensures Valid() && G.Parsed(r, pos, counter) == G.FinishCall(callee, tokens, old(pos), old(counter))
      decreases |tokens| - pos, 2
    {
      var _ := PopFront();
      var args: seq<E.Expr> := [];
      if tokens[pos].ttype != RightParen {
        var list := Arguments();
        if list.Err? {
          return Err(list.error);
        }
        args := list.value;
      }
      var paren := PopFront();
      r := Ok(E.Call(callee, paren, args));
    }

    /** The argument loop of `finish_call`; it stops with `)` at the head. */
    method Arguments() returns (r: Outcome<seq<E.Expr>>)
      requires Valid()
      modifies this
      ensures Valid() && G.Parsed(r, pos, counter) == G.Arguments(G.MaxArguments + 1, [], tokens, old(pos), old(counter))
      decreases |tokens| - pos, 21
    {
      var args: seq<E.Expr> := [];
      while true
        invariant Valid() && old(pos) <= pos
        invariant |args| <= G.MaxArguments
        invariant G.Arguments(G.MaxArguments + 1, [], tokens, old(pos), old(counter)) ==
                  G.Arguments(G.MaxArguments + 1, args, tokens, pos, counter)
        decreases |tokens| - pos
      {
        var arg := Expression();
        if arg.Err? {
          return Err(arg.error);
        }
        args := args + [arg.value];
        if |args| >= G.MaxArguments + 1 {
          r := Error("Function can't have more than 255 arguments.");
          return;
        }
        if tokens[pos].ttype !in {RightParen, Comma} {
          r := Error("Invalid expression call.");
          return;
        } else if tokens[pos].ttype == RightParen {
          break;
        }
        var _ := PopFront();
      }
      r := Ok(args);
    }

    method Primary() returns (r: Outcome<E.Expr>)
      requires Valid()
      modifies this
      ensures Valid() && G.Parsed(r, pos, counter) == G.Primary(tokens, old(pos), old(counter))
      decreases |tokens| - pos, 1
    {
      var head := tokens[pos].ttype;
      if head == False {
        var _ := PopFront();
        r := Ok(E.Literal(Bool(false)));
      } else if head == True {
        var _ := PopFront();
        r := Ok(E.Literal(Bool(true)));
      } else if head == Nil {
        var _ := PopFront();
        r := Ok(E.Literal(BasicType.None));
      } else if head in {TokenType.Number, TokenType.String} {
        var literal := PopFront();
        r := Ok(E.Literal(literal.lexeme.value));
      } else if head == LeftParen {
        var _ := PopFront();
        var expr := Expression();
        if expr.Err? {
          return expr;
        }
        if tokens[pos].ttype != RightParen {
          r := Error("Expect ')' after expression.");
          return;
        }
        var _ := PopFront();
        r := Ok(E.Grouping(expr.value));
      } else if head == This {
        var keyword := PopFront();
        var id := GetCount();
        r := Ok(E.This(keyword, id));
      } else if head == Super {
        var keyword := PopFront();
        if tokens[pos].ttype != Dot {
          r := Error("Expect . after super.");
          return;
        }
        var _ := PopFront();
        if tokens[pos].ttype != Identifier {
          r := Error("Not an identifier after super.");
          return;
        }
        var methodName := PopFront();
        var id := GetCount();
        r := Ok(E.Super(keyword, methodName, id));
      } else if head == Identifier {
        var name := PopFront();
        var id := GetCount();
        r := Ok(E.Variable(name, id));
      } else {
        r := Error("Uncorrected matching.");
      }
    }

    // -------------------------------------------------------------------
    // Declarations and statements
    // -------------------------------------------------------------------

    method Declaration() returns (r: Outcome<S.Stmt>)
      requires Valid()
      modifies this
      ensures Valid() && G.Parsed(r, pos, counter) == SG.Declaration(tokens, old(pos), old(counter))
      decreases |tokens| - pos, 50
    {
      if tokens[pos].ttype == TokenType.Class {
        r := ClassDeclaration();
      } else if tokens[pos].ttype == Fun {
        r := FunctionDeclaration();
      } else if tokens[pos].ttype == TokenType.Var {
        r := VarDeclaration();
      } else {
        r := Statement();
      }
    }

    method ClassDeclaration() returns (r: Outcome<S.Stmt>)
      requires Valid() && tokens[pos].ttype == TokenType.Class
      modifies this
      ensures Valid() && G.Parsed(r, pos, counter) == SG.ClassDeclaration(tokens, old(pos), old(counter))
      decreases |tokens| - pos, 49
    {
      var _ := PopFront();
      if tokens[pos].ttype != Identifier {
        r := Error("Invalid token for class name");
        return;
      }
      var name := PopFront();
      var superclass := Superclass();
      if superclass.Err? {
        return Err(superclass.error);
      }
      r := ClassBody(name, superclass.value);
    }

    /** The optional `< name` of `class_declaration`. */
    method Superclass() returns (r: Outcome<Option<E.Expr>>)
      requires Valid()
      modifies this
      ensures Valid() && G.Parsed(r, pos, counter) == SG.Superclass(tokens, old(pos), old(counter))
    {
      if tokens[pos].ttype != Less {
        return Ok(Option.None);
      }
      var _ := PopFront();
      if tokens[pos].ttype != Identifier {
        r := Error("Invalid superclass name");
        return;
      }
      var name := PopFront();
      var id := GetCount();
      r := Ok(Some(E.Variable(name, id)));
    }

    /** The `{ method* }` part of `class_declaration`. */
    method ClassBody(name: Token, superclass: Option<E.Expr>) returns (r: Outcome<S.Stmt>)
      requires Valid()
      modifies this
      ensures Valid() && G.Parsed(r, pos, counter) == SG.ClassBody(name, superclass, tokens, old(pos), old(counter))
      decreases |tokens| - pos, 48
    {
      if tokens[pos].ttype != LeftBrace {
        r := Error("Expect '{{' before class body");
        return;
      }
      var _ := PopFront();
      var methods: seq<S.Stmt> := [];
      ghost var start, c0 := pos, counter;
      while tokens[pos].ttype != RightBrace
        invariant Valid() && old(pos) < start <= pos
        invariant SG.Methods([], tokens, start, c0) == SG.Methods(methods, tokens, pos, counter)
        decreases |tokens| - pos
      {
        var fn := Function();
        if fn.Err? {
          return Err(fn.error);
        }
        methods := methods + [fn.value];
      }
      var _ := PopFront();
      r := Ok(S.Class(name, superclass, methods));
    }

    method FunctionDeclaration() returns (r: Outcome<S.Stmt>)
      requires Valid() && tokens[pos].ttype == Fun
      modifies this
      ensures Valid() && G.Parsed(r, pos, counter) == SG.FunctionDeclaration(tokens, old(pos), old(counter))
      decreases |tokens| - pos, 47
    {
      var _ := PopFront();
      r := Function();
    }

    method Function() returns (r: Outcome<S.Stmt>)
      requires Valid()
      modifies this
      ensures Valid() && G.Parsed(r, pos, counter) == SG.Function(tokens, old(pos), old(counter))
      decreases |tokens| - pos, 44
    {
      if tokens[pos].ttype != Identifier {
        r := Error("Invalid token for function name.");
        return;
      }
      var name := PopFront();
      var params := Parameters();
      if params.Err? {
        return Err(params.error);
      }
      r := FunctionBody(name, params.value);
    }

    /** The parenthesised parameter list of `function`. */
    method Parameters() returns (r: Outcome<seq<Token>>)
      requires Valid()
      modifies this
      ensures Valid() && G.Parsed(r, pos, counter) == SG.Parameters(tokens, old(pos), old(counter))
    {
      if tokens[pos].ttype != LeftParen {
        r := Error("Expect ( for function arguments.");
        return;
      }
      var _ := PopFront();
      r := ParamList();
      if r.Err? {
        return;
      }
      var _ := PopFront();
    }

    /** The parameter list of `function`, up to the `)` it leaves at the head. */
    method ParamList() returns (r: Outcome<seq<Token>>)
      requires Valid()
      modifies this
      ensures Valid() && G.Parsed(r, pos, counter) == SG.ParamList(tokens, old(pos), old(counter))
    {
      var params: seq<Token> := [];
      if tokens[pos].ttype != RightParen {
        while true
          invariant Valid() && old(pos) <= pos && counter == old(counter)
          invariant |params| <= 255
          invariant SG.Params([], tokens, old(pos), counter) == SG.Params(params, tokens, pos, counter)
          decreases |tokens| - pos
        {
          if |params| >= 255 {
            r := Error("Arguments of function exceed 255.");
            return;
          }
          if tokens[pos].ttype != Identifier {
            r := Error("Invalid name for arguments.");
            return;
          }
          var param := PopFront();
          params := params + [param];
          if tokens[pos].ttype !in {RightParen, Comma} {
            r := Error("Invalid function definition");
            return;
          } else if tokens[pos].ttype == RightParen {
            break;
          }
          var _ := PopFront();
        }
      }
      r := Ok(params);
    }

    /** The body block of `function`. */
    method FunctionBody(name: Token, params: seq<Token>) returns (r: Outcome<S.Stmt>)
      requires Valid()
      modifies this
      ensures Valid() && G.Parsed(r, pos, counter) == SG.FunctionBody(name, params, tokens, old(pos), old(counter))
      decreases |tokens| - pos, 43
    {
      if tokens[pos].ttype != LeftBrace {
        r := Error("Expect '{{' for function body");
        return;
      }
      var body := Block();
      if body.Err? {
        return Err(body.error);
      }
      r := Ok(S.Function(name, params, body.value));
    }

    method VarDeclaration() returns (r: Outcome<S.Stmt>)
      requires Valid() && tokens[pos].ttype == TokenType.Var
      modifies this
      ensures Valid() && G.Parsed(r, pos, counter) == SG.VarDeclaration(tokens, old(pos), old(counter))
      decreases |tokens| - pos, 47
    {
      var _ := PopFront();
      if tokens[pos].ttype != Identifier {
        r := Error("Expect an identifier.");
        return;
      }
      var name := PopFront();
      var initializer := Initializer();
      if initializer.Err? {
        return Err(initializer.error);
      }
      if tokens[pos].ttype != Semicolon {
        r := Error("Expect ';' after expression : Declaration.");
        return;
      }
      var _ := PopFront();
      r := Ok(S.Var(name, initializer.value));
    }

    /** The optional `= expression` of `var_declaration`. */
    method Initializer() returns (r: Outcome<Option<E.Expr>>)
      requires Valid()
      modifies this
      ensures Valid() && G.Parsed(r, pos, counter) == SG.Initializer(tokens, old(pos), old(counter))
      decreases |tokens| - pos, 35
    {
      if tokens[pos].ttype != TokenType.Equal {
        return Ok(Option.None);
      }
      var _ := PopFront();
      var value := Expression();
      if value.Err? {
        return Err(value.error);
      }
      r := Ok(Some(value.value));
    }

    method Statement() returns (r: Outcome<S.Stmt>)
      requires Valid()
      modifies this
      ensures Valid() && G.Parsed(r, pos, counter) == SG.Statement(tokens, old(pos), old(counter))
      decreases |tokens| - pos, 46
    {
      var head := tokens[pos].ttype;
      if head == TokenType.If {
        r := IfStatement();
      } else if head == TokenType.Print {
        r := PrintStatement();
      } else if head == TokenType.Return {
        r := ReturnStatement();
      } else if head == TokenType.While {
        r := WhileStatement();
      } else if head == LeftBrace {
        r := BlockStatement();
      } else {
        r := ExpressionStatement();
      }
    }

    method BlockStatement() returns (r: Outcome<S.Stmt>)
      requires Valid() && tokens[pos].ttype == LeftBrace
      modifies this
      ensures Valid() && G.Parsed(r, pos, counter) == SG.BlockStatement(tokens, old(pos), old(counter))
      decreases |tokens| - pos, 42
    {
      var statements := Block();
      if statements.Err? {
        return Err(statements.error);
      }
      r := Ok(S.Block(statements.value));
    }

    method Block() returns (r: Outcome<seq<S.Stmt>>)
      requires Valid() && tokens[pos].ttype == LeftBrace
      modifies this
      ensures Valid() && G.Parsed(r, pos, counter) == SG.Block(tokens, old(pos), old(counter))
      decreases |tokens| - pos, 36
    {
      var statements: seq<S.Stmt> := [];
      var _ := PopFront();
      ghost var start, c0 := pos, counter;
      while tokens[pos].ttype !in {RightBrace, Eof}
        invariant Valid() && old(pos) < start <= pos
        invariant SG.BlockBody([], tokens, start, c0) == SG.BlockBody(statements, tokens, pos, counter)
        decreases |tokens| - pos
      {
        var declaration := Declaration();
        if declaration.Err? {
          return Err(declaration.error);
        }
        statements := statements + [declaration.value];
      }
      if tokens[pos].ttype != RightBrace {
        r := Error("No matching } for block.");
        return;
      }
      var _ := PopFront();
      r := Ok(statements);
    }

    method IfStatement() returns (r: Outcome<S.Stmt>)
      requires Valid() && tokens[pos].ttype == TokenType.If
      modifies this
      ensures Valid() && G.Parsed(r, pos, counter) == SG.IfStatement(tokens, old(pos), old(counter))
      decreases |tokens| - pos, 41
    {
      var _ := PopFront();
      var condition := Condition("if");
      if condition.Err? {
        return Err(condition.error);
      }
      r := IfBranches(condition.value);
    }

    /** The parenthesised condition of `if_statement` and `while_statement`. */
    method Condition(keyword: string) returns (r: Outcome<E.Expr>)
      requires Valid()
      modifies this
      ensures Valid() && G.Parsed(r, pos, counter) == SG.Condition(keyword, tokens, old(pos), old(counter))
      decreases |tokens| - pos, 35
    {
      if tokens[pos].ttype != LeftParen {
        r := Error("No ( after " + keyword + ".");
        return;
      }
      var _ := PopFront();
      var condition := Expression();
      if condition.Err? {
        return condition;
      }
      if tokens[pos].ttype != RightParen {
        r := Error("No ) after " + keyword + ".");
        return;
      }
      var _ := PopFront();
      r := condition;
    }

    /** The branches of `if_statement`. */
    method IfBranches(condition: E.Expr) returns (r: Outcome<S.Stmt>)
      requires Valid()
      modifies this
      ensures Valid() && G.Parsed(r, pos, counter) == SG.IfBranches(condition, tokens, old(pos), old(counter))
      decreases |tokens| - pos, 47
    {
      var thenBranch := Statement();
      if thenBranch.Err? {
        return Err(thenBranch.error);
      }
      if tokens[pos].ttype != Else {
        return Ok(S.If(condition, thenBranch.value, Option.None));
      }
      var _ := PopFront();
      var elseBranch := Statement();
      if elseBranch.Err? {
        return Err(elseBranch.error);
      }
      r := Ok(S.If(condition, thenBranch.value, Some(elseBranch.value)));
    }

    method ReturnStatement() returns (r: Outcome<S.Stmt>)
      requires Valid() && tokens[pos].ttype == TokenType.Return
      modifies this
      ensures Valid() && G.Parsed(r, pos, counter) == SG.ReturnStatement(tokens, old(pos), old(counter))
      decreases |tokens| - pos, 39
    {
      var keyword := PopFront();
      if tokens[pos].ttype == Semicolon {
        var _ := PopFront();
        return Ok(S.Return(keyword, Option.None));
      }
      var value := Expression();
      if value.Err? {
        return Err(value.error);
      }
      if tokens[pos].ttype != Semicolon {
        r := Error("Expect ';' after return.");
        return;
      }
      var _ := PopFront();
      r := Ok(S.Return(keyword, Some(value.value)));
    }

    method WhileStatement() returns (r: Outcome<S.Stmt>)
      requires Valid() && tokens[pos].ttype == TokenType.While
      modifies this
      ensures Valid() && G.Parsed(r, pos, counter) == SG.WhileStatement(tokens, old(pos), old(counter))
      decreases |tokens| - pos, 38
    {
      var _ := PopFront();
      var condition := Condition("while");
      if condition.Err? {
        return Err(condition.error);
      }
      var body := Statement();
      if body.Err? {
        return Err(body.error);
      }
      r := Ok(S.While(condition.value, body.value));
    }

    method PrintStatement() returns (r: Outcome<S.Stmt>)
      requires Valid() && tokens[pos].ttype == TokenType.Print
      modifies this
      ensures Valid() && G.Parsed(r, pos, counter) == SG.PrintStatement(tokens, old(pos), old(counter))
      decreases |tokens| - pos, 40
    {
      var _ := PopFront();
      var value := Expression();
      if value.Err? {
        return Err(value.error);
      }
      if tokens[pos].ttype != Semicolon {
        r := Error("Expect ';' after expression.");
        return;
      }
      var _ := PopFront();
      r := Ok(S.Print(value.value));
    }

    method ExpressionStatement() returns (r: Outcome<S.Stmt>)
      requires Valid()
      modifies this
      ensures Valid() && G.Parsed(r, pos, counter) == SG.ExpressionStatement(tokens, old(pos), old(counter))
      decreases |tokens| - pos, 37
    {
      var expr := Expression();
      if expr.Err? {
        return Err(expr.error);
      }
      if tokens[pos].ttype != Semicolon {
        r := Error("Expect ';' after expression : Expression.");
        return;
      }
      var _ := PopFront();
      r := Ok(S.Expression(expr.value));
    }

    // -------------------------------------------------------------------
    // Error recovery and the driver
    // -------------------------------------------------------------------

    /** `synchronize`, stopping at the keywords a declaration consumes (see `SG.Synchronize`). */
    method Synchronize()
      requires Valid()
      modifies this
      ensures Valid() && pos == SG.Synchronize(tokens, old(pos)) && counter == old(counter)
    {
      while tokens[pos].ttype != Eof
        invariant Valid() && old(pos) <= pos && counter == old(counter)
        invariant SG.Synchronize(tokens, old(pos)) == SG.Discard(SG.StatementKeywords, tokens, pos)
        decreases |tokens| - pos
      {
        if tokens[pos].ttype == Semicolon {
          var _ := PopFront();
          return;
        }
        if tokens[pos].ttype in SG.StatementKeywords {
          return;
        }
        var _ := PopFront();
      }
    }

    /** `parser`: every declaration up to `Eof`, recovering after each failure. */
    method Parse() returns (r: Outcome<seq<S.Stmt>>)
      requires Valid()
      modifies this
      ensures Valid() && G.Parsed(r, pos, counter) == SG.ParseFrom([], false, tokens, old(pos), old(counter))
    {
      var statements: seq<S.Stmt> := [];
      var hasFailed := false;
      while tokens[pos].ttype != Eof
        invariant Valid() && old(pos) <= pos
        invariant SG.ParseFrom([], false, tokens, old(pos), old(counter)) ==
                  SG.ParseFrom(statements, hasFailed, tokens, pos, counter)
        decreases |tokens| - pos
      {
        var declaration := Declaration();
        match declaration
        case Ok(statement) =>
          statements := statements + [statement];
        case Err(_) =>
          hasFailed := true;
          Synchronize();
      }
      if hasFailed {
        return Err(G.ParseError(0, "Interpretation stopped."));
      }
      r := Ok(statements);
    }
  }
}
