// Tokens and run-time values shared by the tree-walking scanner, parser and
// interpreter (src/token.rs).  Functions, classes and instances, which the
// source holds behind reference-counted pointers, are represented by their
// index in the interpreter's heap.

module Token {
  import opened Wrappers

  datatype TokenType =
    // single-character tokens
    | LeftParen | RightParen | LeftBrace | RightBrace | Comma | Dot
    | Minus | Plus | Semicolon | Slash | Star
    // one or two character tokens
    | Bang | BangEqual | Equal | EqualEqual
    | Greater | GreaterEqual | Less | LessEqual
    // literals
    | Identifier | String | Number
    // keywords
    | And | Class | Else | False | Fun | For | If | Nil | Or
    | Print | Return | Super | This | True | Var | While
    | Eof

  /** A run-time value; `None` is Lox's `nil`. */
  datatype BasicType =
    | None
    | String(str: string)
    | Number(num: real)
    | Bool(truth: bool)
    | Function(fun: nat)
    | Class(klass: nat)
    | Instance(instance: nat)

  datatype Token = Token(ttype: TokenType, lexeme: Option<BasicType>, line: int)

  function AsString(v: BasicType): (r: Option<string>)
    ensures r.Some? <==> v.String?
    ensures r.Some? ==> v == BasicType.String(r.value)
  {
    if v.String? then Some(v.str) else Option.None
  }

  function AsNumber(v: BasicType): (r: Option<real>)
    ensures r.Some? <==> v.Number?
    ensures r.Some? ==> v == BasicType.Number(r.value)
  {
    if v.Number? then Some(v.num) else Option.None
  }

  function AsBool(v: BasicType): (r: Option<bool>)
    ensures r.Some? <==> v.Bool?
    ensures r.Some? ==> v == Bool(r.value)
  {
    if v.Bool? then Some(v.truth) else Option.None
  }

  function AsClass(v: BasicType): (r: Option<nat>)
    ensures r.Some? <==> v.Class?
    ensures r.Some? ==> v == BasicType.Class(r.value)
  {
    if v.Class? then Some(v.klass) else Option.None
  }

  function AsInstance(v: BasicType): (r: Option<nat>)
    ensures r.Some? <==> v.Instance?
    ensures r.Some? ==> v == Instance(r.value)
  {
    if v.Instance? then Some(v.instance) else Option.None
  }

  /** The text of an identifier or string token, as the scanner stores it. */
  function Name(t: Token): (r: Option<string>)
    ensures r.Some? <==> t.lexeme.Some? && t.lexeme.value.String?
    ensures r.Some? ==> t.lexeme == Some(BasicType.String(r.value))
  {
    match t.lexeme
    case Some(String(s)) => Some(s)
    case _ => Option.None
  }

  /** `PartialEq for BasicType`: strings by content, booleans by value. */
  predicate Equal(a: BasicType, b: BasicType) {
    match (a, b)
    case (String(s1), String(s2)) => s1 == s2
    case (Bool(b1), Bool(b2)) => b1 == b2
    case _ => false
  }

  /** Equal values are identical values. */
  lemma EqualSound(a: BasicType, b: BasicType)
    ensures Equal(a, b) ==> a == b
  {
  }

  /** A value equals itself only when it is a string or a boolean. */
  lemma EqualReflexiveOnly(a: BasicType)
    ensures Equal(a, a) <==> a.String? || a.Bool?
  {
  }

  lemma EqualSymmetric(a: BasicType, b: BasicType)
    ensures Equal(a, b) <==> Equal(b, a)
  {
  }

  /**
   * `Display for BasicType`.  `name` is the name of the function or class a
   * `Function` or `Class` value refers to, and `numText` the text Rust's
   * `{}` float formatting gives the number a `Number` value holds.
   */
  function Display(v: BasicType, name: string, numText: string): (r: string)
    ensures v.None? ==> r == "Nil"
    ensures v.Instance? ==> r == ""
    ensures v.String? ==> r == v.str
    ensures v.Number? ==> r == numText
    ensures v.Bool? ==> r == (if v.truth then "true" else "false")
    ensures v.Function? || v.Class? ==> r == name
  {
    match v
    case String(s) => s
    case Number(_) => numText
    case Bool(b) => if b then "true" else "false"
    case Function(_) => name
    case Class(_) => name
    case Instance(_) => ""
    case None => "Nil"
  }

  /**
   * Displaying agrees with the accessors: a string shows as the text
   * `as_string` yields and a boolean as the word for the truth `as_bool`
   * yields, and only nil shows as "Nil" among the values that carry no name
   * or number text.
   */
  lemma DisplayAgreesWithAccessors(v: BasicType, name: string, numText: string)
    ensures AsString(v).Some? ==> Display(v, name, numText) == AsString(v).value
    ensures AsBool(v).Some? ==> Display(v, name, numText) == (if AsBool(v).value then "true" else "false")
    ensures AsNumber(v).Some? ==> Display(v, name, numText) == numText
    ensures !(v.String? || v.Number? || v.Function? || v.Class?) ==> (Display(v, name, numText) == "Nil" <==> v.None?)
  {
  }
}
