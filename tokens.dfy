/** Lexical tokens (token.h): the TOKEN kinds and the Token record whose constructors
    check that the payload agrees with the kind. */
module Tokens {
  import opened Wrappers

  /** The TOKEN enumeration. Reserved (-1 in the source) is never produced by the lexer;
      the grammar uses it as the wildcard lookahead. */
  datatype TokenKind =
    | Reserved | Ident | IntLit | StrLit | Eof
    | KwIf | KwWhile | KwReturn | KwVar
    | ParenOpen | ParenClose | SqBracketOpen | SqBracketClose | CurlyOpen | CurlyClose
    | Comma | Semicolon | Colon | QuestionMark
    | Plus | Minus | Equals | PlusEquals | MinusEquals | Negate | NegateEquals
    | Increment | Decrement | Compare | Star | Amp | And | Or

  /** A token: its kind, the string payload (identifiers and string literals), the integer
      payload (integer literals) and the line it was read on. */
  datatype Token = Token(kind: TokenKind, strVal: Option<string>, intVal: Option<int>, line: nat)

  /** What the constructors guarantee: which payload is present is decided by the kind. */
  predicate PayloadMatchesKind(t: Token) {
    match t.kind
    case Ident | StrLit => t.strVal.Some? && t.intVal.None?
    case IntLit => t.intVal.Some? && t.strVal.None?
    case _ => t.strVal.None? && t.intVal.None?
  }

  /** The logic_error messages thrown by the constructors. */
  datatype TokenError =
    | StringValueRequired    // identifier or string literal built without a string
    | IntegerValueRequired   // integer literal built without an integer
    | StringValueNotAllowed  // any other kind built with a string
    | IntegerValueNotAllowed // any kind but integer literal built with an integer

  /** Token(): end of file on line 0. */
  function DefaultToken(): (t: Token)
    ensures t.kind == Eof && t.line == 0 && PayloadMatchesKind(t)
  {
    Token(Eof, None, None, 0)
  }

  /** Token(kind, line): refuses the three kinds that need a payload. */
  function MakeToken(kind: TokenKind, line: nat): (r: Result<Token, TokenError>)
    ensures r.Ok? <==> kind !in {Ident, StrLit, IntLit}
    ensures r.Ok? ==> r.value.kind == kind && r.value.line == line && PayloadMatchesKind(r.value)
    ensures kind in {Ident, StrLit} ==> r == Err(StringValueRequired)
    ensures kind == IntLit ==> r == Err(IntegerValueRequired)
  {
    if kind == Ident || kind == StrLit then Err(StringValueRequired)
    else if kind == IntLit then Err(IntegerValueRequired)
    else Ok(Token(kind, None, None, line))
  }

  /** Token(kind, string, line): only identifiers and string literals carry a string. */
  function MakeStrToken(kind: TokenKind, s: string, line: nat): (r: Result<Token, TokenError>)
    ensures r.Ok? <==> kind in {Ident, StrLit}
    ensures r.Ok? ==>
      r.value.kind == kind && r.value.strVal == Some(s) && r.value.line == line && PayloadMatchesKind(r.value)
  {
    if kind != Ident && kind != StrLit then Err(StringValueNotAllowed)
    else Ok(Token(kind, Some(s), None, line))
  }

  /** Token(kind, int, line): only integer literals carry an integer. */
  function MakeIntToken(kind: TokenKind, v: int, line: nat): (r: Result<Token, TokenError>)
    ensures r.Ok? <==> kind == IntLit
    ensures r.Ok? ==>
      r.value.kind == IntLit && r.value.intVal == Some(v) && r.value.line == line && PayloadMatchesKind(r.value)
  {
    if kind != IntLit then Err(IntegerValueNotAllowed)
    else Ok(Token(IntLit, None, Some(v), line))
  }

  /** Token(int, line): always an integer literal. */
  function IntToken(v: int, line: nat): (t: Token)
    ensures t.kind == IntLit && t.intVal == Some(v) && t.line == line && PayloadMatchesKind(t)
  {
    Token(IntLit, None, Some(v), line)
  }
}
