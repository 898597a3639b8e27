// The tree-walking pipeline's lexer (src/scanner.rs): a string becomes a
// list of tokens.  Input is ASCII, so character positions and byte
// positions agree.

module Scanner {
  import opened Wrappers
  import opened Token

  datatype ScanError = ScanError(line: int, message: string)

  /** The `keywords` table, shared with the bytecode compiler's scanner. */
  const Keywords: map<string, TokenType> := map[
    "and" := And, "class" := TokenType.Class, "else" := Else, "false" := False,
    "for" := For, "fun" := Fun, "if" := If, "nil" := Nil, "or" := Or,
    "print" := Print, "return" := Return, "super" := Super, "this" := This,
    "true" := True, "var" := Var, "while" := While]

  predicate IsDigit(c: char) { '0' <= c <= '9' }

  predicate IsAlpha(c: char) { 'a' <= c <= 'z' || 'A' <= c <= 'Z' }

  predicate IsAlphaNumeric(c: char) { IsDigit(c) || IsAlpha(c) || c == '_' }

  predicate IsBlank(c: char) { c == '\r' || c == '\n' || c == ' ' || c == '\t' }

  // ---------------------------------------------------------------------
  // Number lexemes.  The source converts them with `parse::<f64>`; here a
  // lexeme `d+` or `d+.d+` denotes its exact decimal value.
  // ---------------------------------------------------------------------

  function DigitValue(c: char): nat { if IsDigit(c) then (c - '0') as nat else 0 }

  function DigitsValue(s: string): nat {
    if s == [] then 0 else DigitsValue(s[..|s| - 1]) * 10 + DigitValue(s[|s| - 1])
  }

  function Pow10(k: nat): (p: nat)
    ensures p >= 1
  {
    if k == 0 then 1 else 10 * Pow10(k - 1)
  }

  /** Position of the first '.', or |s| when there is none. */
  function DotIndex(s: string): (k: nat)
    ensures k <= |s|
    ensures k < |s| ==> s[k] == '.'
    ensures forall i :: 0 <= i < k ==> s[i] != '.'
  {
    if s == [] then 0 else if s[0] == '.' then 0 else 1 + DotIndex(s[1..])
  }

  function DecimalValue(s: string): real {
    var k := DotIndex(s);
    if k == |s| then DigitsValue(s) as real
    else DigitsValue(s[..k]) as real + DigitsValue(s[k + 1..]) as real / Pow10(|s| - k - 1) as real
  }

  lemma DecimalValueExamples()
    ensures DecimalValue("42") == 42.0
    ensures DecimalValue("1.25") == 1.25
  {
    assert DotIndex("42") == 2 by {
      assert DotIndex("2") == 1;
    }
    assert DigitsValue("42") == 42 by {
      assert "42"[..1] == "4";
      assert DigitsValue("4") == 4 by { assert "4"[..0] == ""; }
    }
    var s := "1.25";
    assert DotIndex(s) == 1;
    assert s[..1] == "1" && s[2..] == "25";
    assert DigitsValue("1") == 1 by { assert "1"[..0] == ""; }
    assert DigitsValue("25") == 25 by {
      assert "25"[..1] == "2";
      assert DigitsValue("2") == 2 by { assert "2"[..0] == ""; }
    }
  }

  // ---------------------------------------------------------------------
  // The runs `scan_token` scans with its `while` loops over `end`.
  // ---------------------------------------------------------------------

  /** The blank-skipping loop of `scan_tokens`: the first non-blank at or after `c`. */
  function SkipBlanks(s: string, c: nat): (r: nat)
    requires c <= |s|
    ensures c <= r <= |s|
    ensures r < |s| ==> !IsBlank(s[r])
    ensures forall k :: c <= k < r ==> IsBlank(s[k])
    decreases |s| - c
  {
    if c < |s| && IsBlank(s[c]) then SkipBlanks(s, c + 1) else c
  }

  /** The last position of the digit run continuing after `e`. */
  function DigitRun(s: string, e: nat): (r: nat)
    requires e < |s|
    ensures e <= r < |s|
    ensures forall k :: e < k <= r ==> IsDigit(s[k])
    ensures r + 1 == |s| || !IsDigit(s[r + 1])
    decreases |s| - e
  {
    if e + 1 < |s| && IsDigit(s[e + 1]) then DigitRun(s, e + 1) else e
  }

  /** The last position of the identifier run continuing after `e`. */
  function WordRun(s: string, e: nat): (r: nat)
    requires e < |s|
    ensures e <= r < |s|
    ensures forall k :: e < k <= r ==> IsAlphaNumeric(s[k])
    ensures r + 1 == |s| || !IsAlphaNumeric(s[r + 1])
    decreases |s| - e
  {
    if e + 1 < |s| && IsAlphaNumeric(s[e + 1]) then WordRun(s, e + 1) else e
  }

  /** The first closing quote at or after `e`, or |s| when there is none. */
  function StringEnd(s: string, e: nat): (r: nat)
    requires e <= |s|
    ensures e <= r <= |s|
    ensures r < |s| ==> s[r] == '"'
    ensures forall k :: e <= k < r ==> s[k] != '"'
    decreases |s| - e
  {
    if e < |s| && s[e] != '"' then StringEnd(s, e + 1) else e
  }

  /** The one-character tokens that never combine with a following character. */
  function SingleToken(c: char): (r: Option<TokenType>)
    ensures r.Some? <==> c in {'(', ')', '{', '}', ',', '.', '-', '+', ';', '*'}
  {
    if c == '(' then Some(LeftParen)
    else if c == ')' then Some(RightParen)
    else if c == '{' then Some(LeftBrace)
    else if c == '}' then Some(RightBrace)
    else if c == ',' then Some(Comma)
    else if c == '.' then Some(Dot)
    else if c == '-' then Some(Minus)
    else if c == '+' then Some(Plus)
    else if c == ';' then Some(Semicolon)
    else if c == '*' then Some(Star)
    else Option.None
  }

  /** The operators `!`, `=`, `<` and `>`, alone and followed by `=`. */
  function OperatorToken(c: char, followedByEqual: bool): (r: Option<TokenType>)
    ensures r.Some? <==> c in {'!', '=', '<', '>'}
  {
    if c == '!' then Some(if followedByEqual then BangEqual else Bang)
    else if c == '=' then Some(if followedByEqual then EqualEqual else Equal)
    else if c == '<' then Some(if followedByEqual then LessEqual else Less)
    else if c == '>' then Some(if followedByEqual then GreaterEqual else Greater)
    else Option.None
  }

  lemma KeywordsAreNotEof()
    ensures forall k :: k in Keywords ==> Keywords[k] != Eof
  {
  }

  function KeywordOrIdentifier(text: string): TokenType {
    if text in Keywords then Keywords[text] else Identifier
  }

  /**
   * `scan_token`: the token starting at `pos` and the position just after it.
   * A `//` ends the whole input: it yields an `Eof` token and the position
   * |s| + 1.
   */
  function TokenAt(s: string, pos: nat, line: int): Result<(Token, nat), ScanError>
    requires pos < |s|
  {
    var c := s[pos];
    if SingleToken(c).Some? then Ok((Token(SingleToken(c).value, Option.None, line), pos + 1))
    else if OperatorToken(c, false).Some? then
      var two := pos + 1 < |s| && s[pos + 1] == '=';
      Ok((Token(OperatorToken(c, two).value, Option.None, line), if two then pos + 2 else pos + 1))
    else if c == '/' then
      if pos + 1 < |s| && s[pos + 1] == '/' then Ok((Token(Eof, Option.None, line), |s| + 1))
      else Ok((Token(Slash, Option.None, line), pos + 1))
    else if c == '"' then
      var end := StringEnd(s, pos + 1);
      if end == |s| then Err(ScanError(line, "Unterminated string."))
      else Ok((Token(TokenType.String, Some(BasicType.String(s[pos + 1..end])), line), end + 1))
    else if IsDigit(c) then Ok(NumberToken(s, pos, line))
    else if IsAlpha(c) then
      var end := WordRun(s, pos);
      var text := s[pos..end + 1];
      Ok((Token(KeywordOrIdentifier(text), Some(BasicType.String(text)), line), end + 1))
    else Err(ScanError(line, "Unterminated string."))
  }

  /** The number token starting at `pos` and the position after it; its value is the decimal the digits spell. */
  function NumberToken(s: string, pos: nat, line: int): (Token, nat)
    requires pos < |s|
  {
    var end := NumberEnd(s, pos);
    (Token(TokenType.Number, Some(BasicType.Number(DecimalValue(s[pos..end + 1]))), line), end + 1)
  }

  /** The last position of a number starting at `pos`: digits, then optionally `.` and digits. */
  function NumberEnd(s: string, pos: nat): (r: nat)
    requires pos < |s|
    ensures pos <= r < |s|
  {
    var end := DigitRun(s, pos);
    if end + 2 < |s| && s[end + 1] == '.' && IsDigit(s[end + 2]) then DigitRun(s, end + 2) else end
  }

  /** The loop of `scan_token` that looks for the closing quote. */
  method FindStringEnd(s: string, e: nat) returns (end: nat)
    requires e <= |s|
    ensures end == StringEnd(s, e)
  {
    end := e;
    while end < |s| && s[end] != '"'
      invariant e <= end <= |s|
      invariant StringEnd(s, end) == StringEnd(s, e)
      decreases |s| - end
    {
      end := end + 1;
    }
  }

  /** A loop of `scan_token` over the digits after `e`. */
  method FindDigitRun(s: string, e: nat) returns (end: nat)
    requires e < |s|
    ensures end == DigitRun(s, e)
  {
    end := e;
    while end + 1 < |s| && IsDigit(s[end + 1])
      invariant e <= end < |s|
      invariant DigitRun(s, end) == DigitRun(s, e)
      decreases |s| - end
    {
      end := end + 1;
    }
  }

  /** The loop of `scan_token` over the letters, digits and `_` after `e`. */
  method FindWordRun(s: string, e: nat) returns (end: nat)
    requires e < |s|
    ensures end == WordRun(s, e)
  {
    end := e;
    while end + 1 < |s| && IsAlphaNumeric(s[end + 1])
      invariant e <= end < |s|
      invariant WordRun(s, end) == WordRun(s, e)
      decreases |s| - end
    {
      end := end + 1;
    }
  }

  /** `scan_token` on a string literal. */
  method ScanString(s: string, pos: nat, line: int) returns (r: Result<(Token, nat), ScanError>)
    requires pos < |s| && s[pos] == '"'
    ensures r == TokenAt(s, pos, line)
  {
    var end := FindStringEnd(s, pos + 1);
    if end == |s| {
      r := Err(ScanError(line, "Unterminated string."));
    } else {
      r := Ok((Token(TokenType.String, Some(BasicType.String(s[pos + 1..end])), line), end + 1));
    }
  }

  /** The digit loops of the number branch: the digits, then `.` and more digits when a digit follows the dot. */
  method FindNumberEnd(s: string, pos: nat) returns (end: nat)
    requires pos < |s|
    ensures end == NumberEnd(s, pos)
  {
    end := FindDigitRun(s, pos);
    if end + 2 < |s| && s[end + 1] == '.' && IsDigit(s[end + 2]) {
      end := FindDigitRun(s, end + 2);
    }
  }

  /** `scan_token` on a number. */
  method ScanNumber(s: string, pos: nat, line: int) returns (r: Result<(Token, nat), ScanError>)
    requires pos < |s| && IsDigit(s[pos])
    ensures r == Ok(NumberToken(s, pos, line)) == TokenAt(s, pos, line)
  {
    var end := FindNumberEnd(s, pos);
    r := Ok((Token(TokenType.Number, Some(BasicType.Number(DecimalValue(s[pos..end + 1]))), line), end + 1));
  }

  /** `scan_token` on an identifier or keyword. */
  method ScanWord(s: string, pos: nat, line: int) returns (r: Result<(Token, nat), ScanError>)
    requires pos < |s| && IsAlpha(s[pos])
    ensures r == TokenAt(s, pos, line)
  {
    var end := FindWordRun(s, pos);
    var text := s[pos..end + 1];
    r := Ok((Token(KeywordOrIdentifier(text), Some(BasicType.String(text)), line), end + 1));
  }

  /** `scan_token`. */
  method ScanToken(s: string, pos: nat, line: int) returns (r: Result<(Token, nat), ScanError>)
    requires pos < |s|
    ensures r == TokenAt(s, pos, line)
  {
    var c := s[pos];
    if SingleToken(c).Some? {
      r := Ok((Token(SingleToken(c).value, Option.None, line), pos + 1));
    } else if OperatorToken(c, false).Some? {
      var end := pos;
      var two := pos + 1 < |s| && s[pos + 1] == '=';
      if two {
        end := pos + 1;
      }
      r := Ok((Token(OperatorToken(c, two).value, Option.None, line), end + 1));
    } else if c == '/' {
      if pos + 1 < |s| && s[pos + 1] == '/' {
        r := Ok((Token(Eof, Option.None, line), |s| + 1));
      } else {
        r := Ok((Token(Slash, Option.None, line), pos + 1));
      }
    } else if c == '"' {
      r := ScanString(s, pos, line);
    } else if IsDigit(c) {
      r := ScanNumber(s, pos, line);
    } else if IsAlpha(c) {
      r := ScanWord(s, pos, line);
    } else {
      r := Err(ScanError(line, "Unterminated string."));
    }
  }

  // ---------------------------------------------------------------------
  // Properties of one token.
  // ---------------------------------------------------------------------

  /** Each scan moves forward, past at least the character at `pos`. */
  lemma TokenAtAdvances(s: string, pos: nat, line: int)
    requires pos < |s|
    ensures TokenAt(s, pos, line).Ok? ==> pos < TokenAt(s, pos, line).value.1 <= |s| + 1
    ensures TokenAt(s, pos, line).Ok? && TokenAt(s, pos, line).value.0.ttype != Eof ==>
              TokenAt(s, pos, line).value.1 <= |s|
    ensures TokenAt(s, pos, line).Ok? ==> TokenAt(s, pos, line).value.0.line == line
  {
  }

  /** `!`, `=`, `<` and `>` take the following `=` exactly when there is one. */
  lemma OperatorTakesEqual(s: string, pos: nat, line: int)
    requires pos < |s| && s[pos] in {'!', '=', '<', '>'}
    ensures var two := pos + 1 < |s| && s[pos + 1] == '=';
      TokenAt(s, pos, line) == Ok((Token(OperatorToken(s[pos], two).value, Option.None, line),
                                   if two then pos + 2 else pos + 1))
    ensures var t := TokenAt(s, pos, line).value.0.ttype;
      (t in {BangEqual, EqualEqual, LessEqual, GreaterEqual}) <==> pos + 1 < |s| && s[pos + 1] == '='
  {
  }

  /** `//` ends the input: an `Eof` token and a position past the end. */
  lemma CommentEndsInput(s: string, pos: nat, line: int)
    requires pos + 1 < |s| && s[pos] == '/' && s[pos + 1] == '/'
    ensures TokenAt(s, pos, line) == Ok((Token(Eof, Option.None, line), |s| + 1))
  {
  }

  /** The only `Eof` token `scan_token` makes is the one for `//`. */
  lemma EofOnlyFromComment(s: string, pos: nat, line: int)
    requires pos < |s| && TokenAt(s, pos, line).Ok? && TokenAt(s, pos, line).value.0.ttype == Eof
    ensures pos + 1 < |s| && s[pos] == '/' && s[pos + 1] == '/'
    ensures TokenAt(s, pos, line).value.1 == |s| + 1
  {
    KeywordsAreNotEof();
  }

  /**
   * A string literal's lexeme is the text strictly between its quotes, which
   * holds no quote; without a closing quote the scan fails.
   */
  lemma StringLexeme(s: string, pos: nat, line: int)
    requires pos < |s| && s[pos] == '"'
    ensures TokenAt(s, pos, line).Err? <==> forall k :: pos < k < |s| ==> s[k] != '"'
    ensures TokenAt(s, pos, line).Ok? ==>
              var (t, next) := TokenAt(s, pos, line).value;
              t.ttype == TokenType.String && pos + 2 <= next <= |s| && s[next - 1] == '"' &&
              t.lexeme == Some(BasicType.String(s[pos + 1..next - 1])) &&
              forall k :: pos < k < next - 1 ==> s[k] != '"'
  {
    var end := StringEnd(s, pos + 1);
    if end == |s| {
      assert forall k :: pos < k < |s| ==> s[k] != '"';
    } else {
      assert s[end] == '"';
    }
  }

  /**
   * An identifier starts with a letter and runs over the longest following
   * stretch of letters, digits and `_`; it is a keyword exactly when the text
   * is in `Keywords`.
   */
  lemma IdentifierLexeme(s: string, pos: nat, line: int)
    requires pos < |s| && IsAlpha(s[pos])
    ensures TokenAt(s, pos, line).Ok?
    ensures var (t, next) := TokenAt(s, pos, line).value;
      var text := s[pos..next];
      pos < next <= |s| &&
      (forall k :: pos < k < next ==> IsAlphaNumeric(s[k])) &&
      (next == |s| || !IsAlphaNumeric(s[next])) &&
      t.lexeme == Some(BasicType.String(text)) &&
      (text in Keywords ==> t.ttype == Keywords[text]) &&
      (text !in Keywords ==> t.ttype == Identifier)
  {
  }

  /** Characters that start no token are rejected. */
  lemma UnknownCharacterFails(s: string, pos: nat, line: int)
    requires pos < |s| && !(s[pos] in {'(', ')', '{', '}', ',', '.', '-', '+', ';', '*', '!', '=', '<', '>', '/', '"'}) && !IsDigit(s[pos]) && !IsAlpha(s[pos])
    ensures TokenAt(s, pos, line) == Err(ScanError(line, "Unterminated string."))
  {
  }

  // ---------------------------------------------------------------------
  // scan_tokens
  // ---------------------------------------------------------------------

  /** The source's `scan_tokens` indexes past the end after trailing blanks. */
  predicate NoTrailingBlank(s: string) { |s| == 0 || !IsBlank(s[|s| - 1]) }

  function Prepend(t: Token, r: Result<seq<Token>, ScanError>): Result<seq<Token>, ScanError> {
    match r
    case Ok(ts) => Ok([t] + ts)
    case Err(e) => Err(e)
  }

  function AppendAll(ts: seq<Token>, r: Result<seq<Token>, ScanError>): Result<seq<Token>, ScanError> {
    match r
    case Ok(rest) => Ok(ts + rest)
    case Err(e) => Err(e)
  }

  /** The tokens of the outer loop of `scan_tokens` from position `current` on. */
  function ScanFrom(s: string, current: nat, line: int): Result<seq<Token>, ScanError>
    requires NoTrailingBlank(s)
    decreases |s| - current
  {
    if current >= |s| then Ok([])
    else
      var start := SkipBlanks(s, current);
      assert start < |s|;
      match TokenAt(s, start, line)
      case Err(e) => Err(e)
      case Ok((t, next)) =>
        TokenAtAdvances(s, start, line);
        Prepend(t, ScanFrom(s, next, line))
  }

  function EofToken(line: int): Token { Token(Eof, Option.None, line) }

  /** `scan_tokens`: the token list, closed by one `Eof` token. */
  function ScanAll(s: string, line: int): Result<seq<Token>, ScanError>
    requires NoTrailingBlank(s)
  {
    match ScanFrom(s, 0, line)
    case Err(e) => Err(e)
    case Ok(ts) => if ts == [] || ts[|ts| - 1].ttype != Eof then Ok(ts + [EofToken(line)]) else Ok(ts)
  }

  /** One turn of the outer loop of `scan_tokens`. */
  lemma ScanFromTurn(s: string, current: nat, line: int)
    requires NoTrailingBlank(s) && current < |s|
    ensures var start := SkipBlanks(s, current);
      start < |s| &&
      match TokenAt(s, start, line)
      case Err(e) => ScanFrom(s, current, line) == Err(e)
      case Ok((t, next)) => ScanFrom(s, current, line) == Prepend(t, ScanFrom(s, next, line))
  {
  }

  lemma AppendPrepend(ts: seq<Token>, t: Token, r: Result<seq<Token>, ScanError>)
    ensures AppendAll(ts, Prepend(t, r)) == AppendAll(ts + [t], r)
  {
    if r.Ok? {
      assert ts + ([t] + r.value) == (ts + [t]) + r.value;
    }
  }

  method ScanTokens(s: string, line: int) returns (r: Result<seq<Token>, ScanError>)
    requires NoTrailingBlank(s)
    ensures r == ScanAll(s, line)
  {
    var current: nat := 0;
    var tokens: seq<Token> := [];
    assert AppendAll(tokens, ScanFrom(s, 0, line)) == ScanFrom(s, 0, line) by {
      if ScanFrom(s, 0, line).Ok? {
        assert [] + ScanFrom(s, 0, line).value == ScanFrom(s, 0, line).value;
      }
    }
    while current < |s|
      invariant ScanFrom(s, 0, line) == AppendAll(tokens, ScanFrom(s, current, line))
      decreases |s| + 1 - current
    {
      ghost var from := current;
      while current < |s| && IsBlank(s[current])
        invariant from <= current <= |s|
        invariant SkipBlanks(s, current) == SkipBlanks(s, from)
        decreases |s| - current
      {
        current := current + 1;
      }
      var start := current;
      ScanFromTurn(s, from, line);
      var res := ScanToken(s, start, line);
      match res {
        case Err(e) =>
          return Err(e);
        case Ok((token, c)) =>
          TokenAtAdvances(s, start, line);
          AppendPrepend(tokens, token, ScanFrom(s, c, line));
          tokens := tokens + [token];
          current := c;
      }
    }
    assert ScanFrom(s, 0, line) == Ok(tokens) by {
      assert tokens + [] == tokens;
    }
    if tokens == [] || tokens[|tokens| - 1].ttype != Eof {
      tokens := tokens + [EofToken(line)];
    }
    return Ok(tokens);
  }

  /** A token list is closed by `Eof` and has no other `Eof` token. */
  predicate EndsWithSingleEof(ts: seq<Token>) {
    |ts| > 0 && ts[|ts| - 1].ttype == Eof && forall i :: 0 <= i < |ts| - 1 ==> ts[i].ttype != Eof
  }

  lemma {:induction false} ScanFromEofLast(s: string, current: nat, line: int)
    requires NoTrailingBlank(s) && ScanFrom(s, current, line).Ok?
    ensures var ts := ScanFrom(s, current, line).value;
      (forall i :: 0 <= i < |ts| - 1 ==> ts[i].ttype != Eof) &&
      (forall i :: 0 <= i < |ts| ==> ts[i].line == line)
    decreases |s| - current
  {
    if current < |s| {
      var start := SkipBlanks(s, current);
      var (t, next) := TokenAt(s, start, line).value;
      TokenAtAdvances(s, start, line);
      ScanFromEofLast(s, next, line);
      if t.ttype == Eof {
        EofOnlyFromComment(s, start, line);
        assert ScanFrom(s, next, line) == Ok([]);
      }
    }
  }

  /** Every successful scan ends with exactly one `Eof` token, all on the given line. */
  lemma ScanAllEndsWithEof(s: string, line: int)
    requires NoTrailingBlank(s) && ScanAll(s, line).Ok?
    ensures EndsWithSingleEof(ScanAll(s, line).value)
    ensures forall t :: t in ScanAll(s, line).value ==> t.line == line
  {
    ScanFromEofLast(s, 0, line);
  }
}
