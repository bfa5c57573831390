/** The entries of the parser stack (parsertoken.h): a shifted token or a reduced piece
    of syntax tree, tagged with what it holds. */
module Fragments {
  import opened Tokens
  import opened Expressions
  import opened Statements
  import opened Program

  /** PARSERTOKEN. */
  datatype FragmentTag = LibraryTag | FunctionTag | StatementTag | ExpressionTag | TokenTag | ErrTag

  /** A ParserToken: exactly one of the five payloads, or none for ERR, plus the
      ill-formed flag. */
  datatype Fragment =
    | LibraryFrag(library: Library, illFormed: bool)
    | FunctionFrag(func: Function, illFormed: bool)
    | StatementFrag(statement: Statement, illFormed: bool)
    | ExpressionFrag(expression: Expr, illFormed: bool)
    | TokenFrag(token: Token, illFormed: bool)
    | ErrFrag(illFormed: bool)

  /** gettag(): the tag names the payload the fragment holds. */
  function GetTag(f: Fragment): (t: FragmentTag)
    ensures t == LibraryTag <==> f.LibraryFrag?
    ensures t == FunctionTag <==> f.FunctionFrag?
    ensures t == StatementTag <==> f.StatementFrag?
    ensures t == ExpressionTag <==> f.ExpressionFrag?
    ensures t == TokenTag <==> f.TokenFrag?
    ensures t == ErrTag <==> f.ErrFrag?
  {
    match f
    case LibraryFrag(_, _) => LibraryTag
    case FunctionFrag(_, _) => FunctionTag
    case StatementFrag(_, _) => StatementTag
    case ExpressionFrag(_, _) => ExpressionTag
    case TokenFrag(_, _) => TokenTag
    case ErrFrag(_) => ErrTag
  }

  /** ParserToken(ill_formed = false): the ERR fragment with no payload. */
  function DefaultFragment(): (f: Fragment)
    ensures GetTag(f) == ErrTag && !f.illFormed
  {
    ErrFrag(false)
  }

  /** A shifted identifier token, the fragments the function and variable-definition
      reductions collect names from (the token constructors give every identifier its
      string). */
  predicate IsIdentFragment(f: Fragment) {
    f.TokenFrag? && f.token.kind == Ident && f.token.strVal.Some?
  }

  /** A shifted token of the given kind that carries no payload: punctuation, keywords. */
  predicate IsPunct(f: Fragment, k: TokenKind) {
    f.TokenFrag? && f.token.kind == k && f.token.strVal.None? && f.token.intVal.None?
  }
}
