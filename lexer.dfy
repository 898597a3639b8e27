// The bytecode compiler's own character scanner (the `Scanner` struct of
// src/compile.rs).  Tokens are positions into the source rather than
// strings.  The scanner reads one character past the current one in two
// places (`source[pos + 1]` after a '/' and after a number's '.'), which
// panics when that character is the last of the input; such sources are
// excluded by `LookaheadSafe`.

module Lexer {
  import opened Wrappers
  import opened Token
  import S = Scanner

  /** A token as a slice of the source: its type, where it starts, how long it is, and its line. */
  datatype NewToken = NewToken(ttype: TokenType, start: nat, length: nat, line: int)

  datatype ParseError = ParseError(line: int, token: string, reason: string)

  const UnterminatedString := "Unterminated string."
  const UnknownError := "Unknown Error"

  /** The source does not end in a character after which the scanner looks one further. */
  predicate LookaheadSafe(s: string)
  {
    |s| == 0 || (s[|s| - 1] != '/' && s[|s| - 1] != '.')
  }

  /** How many newlines `s` holds. */
  function Newlines(s: string): (n: nat)
    ensures n <= |s|
  {
    if s == [] then 0 else (if s[0] == '\n' then 1 else 0) + Newlines(s[1..])
  }

  lemma {:induction false} NewlinesSplit(s: string, i: nat)
    requires i <= |s|
    ensures Newlines(s) == Newlines(s[..i]) + Newlines(s[i..])
  {
    if i > 0 {
      assert s[..i][1..] == s[1..][..i - 1];
      assert s[i..] == s[1..][i - 1..];
      NewlinesSplit(s[1..], i - 1);
    }
  }

  /** The newlines between `p` and `q` are those before `q` less those before `p`. */
  lemma NewlinesStep(s: string, p: nat, q: nat, r: nat)
    requires p <= q <= r <= |s|
    ensures Newlines(s[p..r]) == Newlines(s[p..q]) + Newlines(s[q..r])
  {
    NewlinesSplit(s[p..r], q - p);
    assert s[p..r][..q - p] == s[p..q];
    assert s[p..r][q - p..] == s[q..r];
  }

  // ---------------------------------------------------------------------
  // The scanning loops, as functions of the source and a position.
  // ---------------------------------------------------------------------

  /** The comment loop of `skip_whitespace`: up to the next newline, or the end of input. */
  function CommentEnd(s: string, p: nat): (r: nat)
    requires p <= |s|
    ensures p <= r <= |s| && (r == |s| || s[r] == '\n')
    ensures forall i :: p <= i < r ==> s[i] != '\n'
    decreases |s| - p
  {
    if p == |s| || s[p] == '\n' then p else CommentEnd(s, p + 1)
  }

  lemma {:induction false} CommentHasNoNewline(s: string, p: nat)
    requires p <= |s|
    ensures Newlines(s[p..CommentEnd(s, p)]) == 0
    decreases |s| - p
  {
    var r := CommentEnd(s, p);
    if p < r {
      CommentHasNoNewline(s, p + 1);
      assert s[p..r][1..] == s[p + 1..r];
    }
  }

  /**
   * The comment loop as written: it reads `peek()` before testing
   * `is_at_end()`, so at the end of input it indexes one past the source
   * (None here).
   */
  function CommentEndAsWritten(s: string, p: nat): (r: Option<nat>)
    requires p <= |s|
    decreases |s| - p
  {
    if p == |s| then Option.None
    else if s[p] == '\n' then Some(p)
    else CommentEndAsWritten(s, p + 1)
  }

  /** As written, a comment panics exactly when no newline follows it; otherwise it ends where intended. */
  lemma {:induction false} CommentAsWrittenPanics(s: string, p: nat)
    requires p <= |s|
    ensures CommentEndAsWritten(s, p).None? <==> CommentEnd(s, p) == |s|
    ensures CommentEndAsWritten(s, p).Some? ==> CommentEndAsWritten(s, p).value == CommentEnd(s, p)
    decreases |s| - p
  {
    if p < |s| && s[p] != '\n' {
      CommentAsWrittenPanics(s, p + 1);
    }
  }

  /** `1; // one` without a final newline: the intended loop stops at the end, the written one reads past it. */
  lemma TrailingCommentPanics()
    ensures CommentEndAsWritten("1; // one", 3).None?
    ensures CommentEnd("1; // one", 3) == 9
  {
    CommentAsWrittenPanics("1; // one", 3);
  }

  /** The string loop of `scan_token`: up to the closing quote or the end, with the newlines passed. */
  function StringEnd(s: string, p: nat, line: int): (r: (nat, int))
    requires p <= |s|
    ensures p <= r.0 <= |s| && (r.0 == |s| || s[r.0] == '"')
    ensures forall i :: p <= i < r.0 ==> s[i] != '"'
    ensures r.1 == line + Newlines(s[p..r.0])
    decreases |s| - p
  {
    if p == |s| || s[p] == '"' then (p, line)
    else
      var r := StringEnd(s, p + 1, if s[p] == '\n' then line + 1 else line);
      assert s[p..r.0][1..] == s[p + 1..r.0];
      r
  }

  /** The string loop as written: `peek()` first, so an unterminated string reads past the end (None). */
  function StringEndAsWritten(s: string, p: nat, line: int): (r: Option<(nat, int)>)
    requires p <= |s|
    decreases |s| - p
  {
    if p == |s| then Option.None
    else if s[p] == '"' then Some((p, line))
    else StringEndAsWritten(s, p + 1, if s[p] == '\n' then line + 1 else line)
  }

  /**
   * As written, an unterminated string panics instead of being reported as
   * "Unterminated string."; a terminated one ends where intended.
   */
  lemma {:induction false} StringAsWrittenPanics(s: string, p: nat, line: int)
    requires p <= |s|
    ensures StringEndAsWritten(s, p, line).None? <==> StringEnd(s, p, line).0 == |s|
    ensures StringEndAsWritten(s, p, line).Some? ==> StringEndAsWritten(s, p, line).value == StringEnd(s, p, line)
    decreases |s| - p
  {
    if p < |s| && s[p] != '"' {
      StringAsWrittenPanics(s, p + 1, if s[p] == '\n' then line + 1 else line);
    }
  }

  /** The digit loop: the first position at or after `p` that is not a digit. */
  function DigitsEnd(s: string, p: nat): (r: nat)
    requires p <= |s|
    ensures p <= r <= |s| && (r == |s| || !S.IsDigit(s[r]))
    ensures forall i :: p <= i < r ==> S.IsDigit(s[i])
    decreases |s| - p
  {
    if p < |s| && S.IsDigit(s[p]) then DigitsEnd(s, p + 1) else p
  }

  /** The identifier loop: the first position at or after `p` that is not `[0-9A-Za-z_]`. */
  function WordEnd(s: string, p: nat): (r: nat)
    requires p <= |s|
    ensures p <= r <= |s| && (r == |s| || !S.IsAlphaNumeric(s[r]))
    ensures forall i :: p <= i < r ==> S.IsAlphaNumeric(s[i])
    decreases |s| - p
  {
    if p < |s| && S.IsAlphaNumeric(s[p]) then WordEnd(s, p + 1) else p
  }

  /** A character `skip_whitespace` passes over by itself. */
  predicate IsSpace(c: char) { c == ' ' || c == '\t' || c == '\r' || c == '\n' }

  /**
   * `skip_whitespace`: blanks, newlines (counted) and `//` comments, up to
   * the first character that starts a token, or the end.
   */
  function SkipSpace(s: string, p: nat, line: int): (r: (nat, int))
    requires p <= |s| && LookaheadSafe(s)
    ensures p <= r.0 <= |s|
    ensures r.0 < |s| ==> !IsSpace(s[r.0]) && !(s[r.0] == '/' && s[r.0 + 1] == '/')
    decreases |s| - p
  {
    if p == |s| then (p, line)
    else if s[p] == ' ' || s[p] == '\t' || s[p] == '\r' || s[p] == '\n' then
      SkipSpace(s, p + 1, if s[p] == '\n' then line + 1 else line)
    else if s[p] == '/' && s[p + 1] == '/' then
      SkipSpace(s, CommentEnd(s, p), line)
    else (p, line)
  }

  /** `skip_whitespace` counts every newline it passes, and none inside a comment is missed. */
  lemma {:induction false} SkipSpaceCountsLines(s: string, p: nat, line: int)
    requires p <= |s| && LookaheadSafe(s)
    ensures var r := SkipSpace(s, p, line);
            r.1 == line + Newlines(s[p..r.0])
    decreases |s| - p
  {
    var r := SkipSpace(s, p, line);
    if p == |s| {
    } else if s[p] == ' ' || s[p] == '\t' || s[p] == '\r' || s[p] == '\n' {
      SkipSpaceCountsLines(s, p + 1, if s[p] == '\n' then line + 1 else line);
      assert s[p..r.0][1..] == s[p + 1..r.0];
    } else if s[p] == '/' && s[p + 1] == '/' {
      var q := CommentEnd(s, p);
      SkipSpaceCountsLines(s, q, line);
      CommentHasNoNewline(s, p);
      NewlinesStep(s, p, q, r.0);
    }
  }

  /** The type of a one- or two-character operator starting with `c`, given whether `=` follows. */
  function Operator(c: char, withEqual: bool): (r: Option<TokenType>)
    ensures r.Some? <==> c in {'!', '=', '<', '>'}
  {
    match c
    case '!' => Some(if withEqual then BangEqual else Bang)
    case '=' => Some(if withEqual then EqualEqual else TokenType.Equal)
    case '<' => Some(if withEqual then LessEqual else Less)
    case '>' => Some(if withEqual then GreaterEqual else Greater)
    case _ => Option.None
  }

  /** The characters that are a token by themselves. */
  function Single(c: char): (r: Option<TokenType>)
    ensures r.Some? <==> c in {'(', ')', '{', '}', ';', ',', '.', '-', '+', '/', '*'}
  {
    match c
    case '(' => Some(LeftParen)
    case ')' => Some(RightParen)
    case '{' => Some(LeftBrace)
    case '}' => Some(RightBrace)
    case ';' => Some(Semicolon)
    case ',' => Some(Comma)
    case '.' => Some(Dot)
    case '-' => Some(Minus)
    case '+' => Some(Plus)
    case '/' => Some(Slash)
    case '*' => Some(Star)
    case _ => Option.None
  }

  /** The text of the token at `start` of length `length`; "" for a slice outside the source. */
  function Slice(s: string, start: nat, length: nat): (r: string)
    ensures start + length <= |s| ==> r == s[start..start + length]
  {
    if start + length <= |s| then s[start..start + length] else ""
  }

  predicate StartsWord(c: char) { S.IsAlpha(c) || c == '_' }

  /** What one `scan_token` call yields, and where it leaves the scanner. */
  datatype Scanned = Scanned(result: Result<NewToken, ParseError>, pos: nat, line: int)

  /** Where a number lexeme starting at `start` ends: digits, then `.` and digits if a digit follows the dot. */
  function NumberEnd(s: string, start: nat): (r: nat)
    requires start < |s| && LookaheadSafe(s)
    ensures start < r <= |s|
  {
    var e := DigitsEnd(s, start + 1);
    if e < |s| && s[e] == '.' && S.IsDigit(s[e + 1]) then DigitsEnd(s, e + 1) else e
  }

  /** `scan_token` on the source `s` from position `p` on line `line`. */
  function Scan(s: string, p: nat, line: int): (r: Scanned)
    requires p <= |s| && LookaheadSafe(s)
    ensures p <= r.pos <= |s|
  {
    var (start, ln) := SkipSpace(s, p, line);
    ScanAt(s, start, ln)
  }

  /** `scan_token` once the whitespace before the token, which starts at `start` on line `ln`, is skipped. */
  function ScanAt(s: string, start: nat, ln: int): (r: Scanned)
    requires start <= |s| && LookaheadSafe(s)
    ensures start <= r.pos <= |s|
  {
    if start == |s| then Scanned(Ok(NewToken(Eof, start, 0, ln)), start, ln)
    else
      var c := s[start];
      if Single(c).Some? then Scanned(Ok(NewToken(Single(c).value, start, 1, ln)), start + 1, ln)
      else if Operator(c, false).Some? then
        var two := start + 1 < |s| && s[start + 1] == '=';
        var end := if two then start + 2 else start + 1;
        Scanned(Ok(NewToken(Operator(c, two).value, start, end - start, ln)), end, ln)
      else if c == '"' then
        var (e, ln') := StringEnd(s, start + 1, ln);
        if e == |s| then Scanned(Err(ParseError(ln', "end", UnterminatedString)), e, ln')
        else Scanned(Ok(NewToken(TokenType.String, start, e + 1 - start, ln')), e + 1, ln')
      else if S.IsDigit(c) then
        var e := NumberEnd(s, start);
        Scanned(Ok(NewToken(TokenType.Number, start, e - start, ln)), e, ln)
      else if StartsWord(c) then
        var e := WordEnd(s, start + 1);
        var text := s[start..e];
        var t := if text in S.Keywords then S.Keywords[text] else Identifier;
        Scanned(Ok(NewToken(t, start, e - start, ln)), e, ln)
      else Scanned(Err(ParseError(ln, s[start..start + 1], UnknownError)), start + 1, ln)
  }

  // ---------------------------------------------------------------------
  // What `scan_token` promises.
  // ---------------------------------------------------------------------

  /** A token lies inside the source, ends where the scanner stops, and only `Eof` is empty. */
  lemma TokenInSource(s: string, p: nat, line: int)
    requires p <= |s| && LookaheadSafe(s)
    ensures var r := Scan(s, p, line);
            r.result.Ok? ==> r.result.value.start + r.result.value.length == r.pos
                             && p <= r.result.value.start
                             && (r.result.value.ttype == Eof <==> r.result.value.length == 0)
                             && (r.result.value.ttype == TokenType.String ==> r.result.value.length >= 2)
  {
  }

  /** Only `Eof` leaves the scanner where it was; every other token and every error moves it on. */
  lemma ScanMoves(s: string, p: nat, line: int)
    requires p <= |s| && LookaheadSafe(s)
    ensures var r := Scan(s, p, line);
            (r.result.Ok? && r.result.value.ttype == Eof) || r.pos > p
    ensures var r := Scan(s, p, line);
            r.result.Ok? && r.result.value.ttype == Eof ==> r.pos == |s|
  {
  }

  /** `!=`, `==`, `<=`, `>=` exactly when `=` follows the first character; otherwise the one-character token. */
  lemma EqualMakesTwoCharacters(s: string, p: nat, line: int)
    requires p <= |s| && LookaheadSafe(s)
    requires var start := SkipSpace(s, p, line).0; start < |s| && s[start] in {'!', '=', '<', '>'}
    ensures var start := SkipSpace(s, p, line).0;
            var r := Scan(s, p, line);
            var two := start + 1 < |s| && s[start + 1] == '=';
            r.result == Ok(NewToken(Operator(s[start], two).value, start, if two then 2 else 1, SkipSpace(s, p, line).1))
            && (two <==> r.result.value.ttype in {BangEqual, EqualEqual, LessEqual, GreaterEqual})
  {
  }

  /** A string without its closing quote is "Unterminated string."; one with it spans both quotes. */
  lemma StringToken(s: string, p: nat, line: int)
    requires p <= |s| && LookaheadSafe(s)
    requires var start := SkipSpace(s, p, line).0; start < |s| && s[start] == '"'
    ensures var start := SkipSpace(s, p, line).0;
            var r := Scan(s, p, line);
            ('"' !in s[start + 1..] <==> r.result == Err(ParseError(r.line, "end", UnterminatedString)))
            && (r.result.Ok? ==> r.result.value.ttype == TokenType.String && s[r.pos - 1] == '"'
                                  && '"' !in s[start + 1..r.pos - 1])
  {
    var start := SkipSpace(s, p, line).0;
    var e := StringEnd(s, start + 1, SkipSpace(s, p, line).1).0;
    if e < |s| {
      assert s[start + 1..][e - start - 1] == '"';
    } else {
      var t := s[start + 1..];
      assert forall j :: 0 <= j < |t| ==> t[j] != '"';
    }
  }

  /** A word is a keyword when the table has it and an identifier otherwise; it stops at the first non-word character. */
  lemma WordToken(s: string, p: nat, line: int)
    requires p <= |s| && LookaheadSafe(s)
    requires var start := SkipSpace(s, p, line).0; start < |s| && StartsWord(s[start])
    ensures var start := SkipSpace(s, p, line).0;
            var r := Scan(s, p, line);
            var text := s[start..r.pos];
            r.result.Ok? && (r.pos == |s| || !S.IsAlphaNumeric(s[r.pos]))
            && (text in S.Keywords ==> r.result.value.ttype == S.Keywords[text])
            && (text !in S.Keywords ==> r.result.value.ttype == Identifier)
  {
  }

  /** A character that starts no token is an "Unknown Error" naming it, and the scanner steps past it. */
  lemma UnknownCharacter(s: string, p: nat, line: int)
    requires p <= |s| && LookaheadSafe(s)
    requires var start := SkipSpace(s, p, line).0;
             start < |s| && Single(s[start]).None? && Operator(s[start], false).None? && s[start] != '"'
             && !S.IsDigit(s[start]) && !StartsWord(s[start])
    ensures var start := SkipSpace(s, p, line).0;
            var r := Scan(s, p, line);
            r.result == Err(ParseError(r.line, [s[start]], UnknownError)) && r.pos == start + 1
  {
    var start := SkipSpace(s, p, line).0;
    assert s[start..start + 1] == [s[start]];
  }

  // ---------------------------------------------------------------------
  // The scanner object.
  // ---------------------------------------------------------------------

  class Scanner {
    const source: string
    /** `src.len()`: the byte length, equal to the character count for ASCII input. */
    const length: nat
    var pos: nat
    var line: int

    ghost predicate Valid()
      reads this
    {
      length == |source| && pos <= length && LookaheadSafe(source)
    }

    /** `init_scanner`. */
    constructor (src: string)
      requires LookaheadSafe(src)
      ensures Valid() && source == src && pos == 0 && line == 1
    {
      source := src;
      length := |src|;
      pos := 0;
      line := 1;
    }

    predicate IsAtEnd()
      reads this
    {
      pos == length
    }

    /** `advance`: the current character, stepping past it. */
    method Advance() returns (c: char)
      requires Valid() && pos < length
      modifies this
      ensures Valid() && pos == old(pos) + 1 && c == source[old(pos)] && line == old(line)
    {
      pos := pos + 1;
      c := source[pos - 1];
    }

    /** `is_match`: steps past the current character when it is `expect`. */
    method IsMatch(expected: char) returns (b: bool)
      requires Valid()
      modifies this
      ensures Valid() && line == old(line)
      ensures b <==> old(pos) < length && source[old(pos)] == expected
      ensures pos == if b then old(pos) + 1 else old(pos)
    {
      if IsAtEnd() {
        return false;
      }
      if source[pos] != expected {
        return false;
      }
      pos := pos + 1;
      b := true;
    }

    /** `make_token`: the slice from `start` to the current position, on the current line. */
    function MakeToken(ttype: TokenType, start: nat): (t: NewToken)
      reads this
      requires start <= pos
      ensures t.start + t.length == pos && t.line == line && t.ttype == ttype
    {
      NewToken(ttype, start, pos - start, line)
    }

    /** `get_string`: the text of a slice of the source. */
    function GetString(start: nat, length: nat): (r: string)
      ensures start + length <= |source| ==> r == source[start..start + length]
    {
      Slice(source, start, length)
    }

    /** The comment loop of `skip_whitespace`. */
    method SkipComment()
      requires Valid()
      modifies this
      ensures Valid() && line == old(line) && pos == CommentEnd(source, old(pos))
    {
      while !IsAtEnd() && source[pos] != '\n'
        invariant Valid() && line == old(line) && old(pos) <= pos
        invariant CommentEnd(source, old(pos)) == CommentEnd(source, pos)
        decreases length - pos
      {
        pos := pos + 1;
      }
    }

    /** `skip_whitespace`. */
    method SkipWhitespace()
      requires Valid()
      modifies this
      ensures Valid() && (pos, line) == SkipSpace(source, old(pos), old(line))
    {
      while !IsAtEnd()
        invariant Valid()
        invariant SkipSpace(source, old(pos), old(line)) == SkipSpace(source, pos, line)
        decreases length - pos
      {
        var c := source[pos];
        if c == ' ' || c == '\t' || c == '\r' || c == '\n' {
          if c == '\n' {
            line := line + 1;
          }
          pos := pos + 1;
        } else if c == '/' && source[pos + 1] == '/' {
          SkipComment();
        } else {
          return;
        }
      }
    }

    /** The string branch of `scan_token`: the loop up to the closing quote. */
    method ScanString(start: nat) returns (r: Result<NewToken, ParseError>)
      requires Valid() && start < pos && source[start] == '"' && pos == start + 1
      modifies this
      ensures Valid()
      ensures var (e, ln) := StringEnd(source, old(pos), old(line));
              line == ln && (if e == |source| then pos == e && r == Err(ParseError(ln, "end", UnterminatedString))
                            else pos == e + 1 && r == Ok(NewToken(TokenType.String, start, e + 1 - start, ln)))
    {
      while !IsAtEnd() && source[pos] != '"'
        invariant Valid() && start < pos
        invariant StringEnd(source, old(pos), old(line)) == StringEnd(source, pos, line)
        decreases length - pos
      {
        if source[pos] == '\n' {
          line := line + 1;
        }
        pos := pos + 1;
      }
      if IsAtEnd() {
        return Err(ParseError(line, "end", UnterminatedString));
      }
      pos := pos + 1;
      r := Ok(MakeToken(TokenType.String, start));
    }

    /** The number branch: digits, then a dot and digits when a digit follows the dot. */
    method ScanNumber(start: nat) returns (t: NewToken)
      requires Valid() && start < |source| && S.IsDigit(source[start]) && pos == start + 1
      modifies this
      ensures Valid() && line == old(line) && pos == NumberEnd(source, start)
      ensures t == NewToken(TokenType.Number, start, pos - start, line)
    {
      SkipDigits();
      if !IsAtEnd() && source[pos] == '.' && S.IsDigit(source[pos + 1]) {
        pos := pos + 1;
        SkipDigits();
      }
      t := MakeToken(TokenType.Number, start);
    }

    /** The digit loop of the number branch. */
    method SkipDigits()
      requires Valid()
      modifies this
      ensures Valid() && line == old(line) && pos == DigitsEnd(source, old(pos))
    {
      while !IsAtEnd() && S.IsDigit(source[pos])
        invariant Valid() && line == old(line) && old(pos) <= pos && DigitsEnd(source, old(pos)) == DigitsEnd(source, pos)
        decreases length - pos
      {
        pos := pos + 1;
      }
    }

    /** The identifier branch: the word, then the keyword table. */
    method ScanWord(start: nat) returns (t: NewToken)
      requires Valid() && start < |source| && pos == start + 1
      modifies this
      ensures Valid() && line == old(line) && pos == WordEnd(source, start + 1)
      ensures var text := source[start..pos];
              t == NewToken(if text in S.Keywords then S.Keywords[text] else Identifier, start, pos - start, line)
    {
      while !IsAtEnd() && S.IsAlphaNumeric(source[pos])
        invariant Valid() && line == old(line) && start < pos && WordEnd(source, start + 1) == WordEnd(source, pos)
        decreases length - pos
      {
        pos := pos + 1;
      }
      assert pos == WordEnd(source, start + 1);
      var text := source[start..pos];
      var ttype := if text in S.Keywords then S.Keywords[text] else Identifier;
      t := MakeToken(ttype, start);
    }

    /** `scan_token`. */
    method ScanToken() returns (r: Result<NewToken, ParseError>)
      requires Valid()
      modifies this
      ensures Valid() && Scanned(r, pos, line) == Scan(source, old(pos), old(line))
    {
      SkipWhitespace();
      r := ScanLexeme();
    }

    /** The body of `scan_token` after `skip_whitespace`. */
    method ScanLexeme() returns (r: Result<NewToken, ParseError>)
      requires Valid()
      modifies this
      ensures Valid() && Scanned(r, pos, line) == ScanAt(source, old(pos), old(line))
    {
      var start := pos;
      if IsAtEnd() {
        return Ok(MakeToken(Eof, start));
      }
      var c := Advance();
      if Single(c).Some? {
        return Ok(MakeToken(Single(c).value, start));
      }
      if Operator(c, false).Some? {
        var two := IsMatch('=');
        return Ok(MakeToken(Operator(c, two).value, start));
      }
      if c == '"' {
        r := ScanString(start);
        return;
      }
      if S.IsDigit(c) {
        var t := ScanNumber(start);
        return Ok(t);
      }
      if StartsWord(c) {
        var t := ScanWord(start);
        return Ok(t);
      }
      r := Err(ParseError(line, source[start..pos], UnknownError));
    }
  }
}
