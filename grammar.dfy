/** The parse table (lang_syntax.h): actions, goals, and the map from (state, lookahead
    kind) to the action the parser takes. */
module Grammar {
  import opened Wrappers
  import opened Tokens
  import opened Expressions
  import opened Statements
  import opened Variants

  /** ACTION. */
  datatype ActionKind = Jump | CallNonterm | Shift | Reduce | CallNontermRec | Return

  /** GOAL: the tag of a Goal. */
  datatype GoalTag = LibraryTag | FunctionTag | StatementTag | ExpressionTag | NoneTag

  /** Goal: what a REDUCE builds; statements and expressions also name their kind. */
  datatype Goal =
    | LibraryGoal
    | FunctionGoal
    | StatementGoal(stmt: StatementKind)
    | ExpressionGoal(expr: ExprKind)
    | NoGoal

  datatype GoalError = MissingGoalKind

  /** Goal(GOAL): a statement or expression goal cannot be made from the tag alone. */
  function MakeGoal(tag: GoalTag): (r: Result<Goal, GoalError>)
    ensures r.Err? <==> tag == StatementTag || tag == ExpressionTag
    ensures tag == LibraryTag ==> r == Ok(LibraryGoal)
    ensures tag == FunctionTag ==> r == Ok(FunctionGoal)
    ensures tag == NoneTag ==> r == Ok(NoGoal)
  {
    match tag
    case LibraryTag => Ok(LibraryGoal)
    case FunctionTag => Ok(FunctionGoal)
    case NoneTag => Ok(NoGoal)
    case _ => Err(MissingGoalKind)
  }

  /** Goal(): no goal. */
  function DefaultGoal(): (g: Goal)
    ensures g.NoGoal?
  {
    NoGoal
  }

  /** An Action: what to do, the state to go to, the state to return to, the goal of a
      REDUCE, and whether a RETURN ends the parse. */
  datatype Action = Action(kind: ActionKind, next: int, ret: int, goal: Goal, loadNext: bool)

  /** Action(): the parser starts each feed with it; its fields are left uninitialised in
      the source and are taken here as the commented-out JUMP to -1. */
  function DefaultAction(): (a: Action)
    ensures a.kind == Jump && a.next == -1 && a.ret == -1 && a.goal == NoGoal && !a.loadNext
  {
    Action(Jump, -1, -1, NoGoal, false)
  }

  /** Action(action, next, ret = -1): a move to a state, with no goal. */
  function StateAction(kind: ActionKind, next: int, ret: int): (a: Action)
    ensures a.kind == kind && a.next == next && a.ret == ret && a.goal == NoGoal && !a.loadNext
  {
    Action(kind, next, ret, NoGoal, false)
  }

  /** Action(action, goal = Goal(), ret = -1): a reduction or return, with no next state. */
  function GoalAction(kind: ActionKind, goal: Goal, ret: int): (a: Action)
    ensures a.kind == kind && a.next == -1 && a.ret == ret && a.goal == goal && !a.loadNext
  {
    Action(kind, -1, ret, goal, false)
  }

  /** Action(action, load_next_token). */
  function LoadAction(kind: ActionKind, load: bool): (a: Action)
    ensures a.kind == kind && a.next == -1 && a.ret == -1 && a.goal == NoGoal && a.loadNext == load
  {
    Action(kind, -1, -1, NoGoal, load)
  }

  /** The grammar map exactly as written: one action per (state, kind) key, the key
      Current(state) standing for (state, Reserved), the wildcard. The table is split by
      state into the sub-tables below. */
  function GrammarAsWritten(state: int, k: TokenKind): (a: Option<Action>)
    ensures a.Some? ==> EntryShape(state, a.value)
  {
    if state < 12 then Entries0To11(state, k)
    else if state < 24 then Entries12To23(state, k)
    else if state < 36 then Entries24To35(state, k)
    else if state < 50 then Entries36To49(state, k)
    else if state < 63 then Entries50To62(state, k)
    else if state < 79 then Entries63To78(state, k)
    else if state < 97 then Entries79To96(state, k)
    else if state < 110 then Entries97To109(state, k)
    else if state < 122 then Entries110To121(state, k)
    else if state < 135 then Entries122To134(state, k)
    else Entries135To148(state, k)
  }

  /** The entries of states 0 to 11. */
  function Entries0To11(state: int, k: TokenKind): (a: Option<Action>)
    ensures a.Some? ==> EntryShape(state, a.value)
  {
    if state == 0 then
      if k.Reserved? then Some(Action(CallNonterm, 1, 93, NoGoal, false))
      else if k.Eof? then Some(Action(Shift, 2, -1, NoGoal, false))
      else None
    else if state == 1 then
      if k.Ident? then Some(Action(Shift, 4, -1, NoGoal, false))
      else None
    else if state == 3 then
      if k.Reserved? then Some(Action(Return, -1, -1, NoGoal, true))
      else None
    else if state == 4 then
      if k.Ident? then Some(Action(Shift, 5, -1, NoGoal, false))
      else if k.Colon? then Some(Action(Shift, 7, -1, NoGoal, false))
      else None
    else if state == 5 then
      if k.Comma? then Some(Action(Shift, 6, -1, NoGoal, false))
      else if k.Colon? then Some(Action(Shift, 7, -1, NoGoal, false))
      else None
    else if state == 6 then
      if k.Ident? then Some(Action(Shift, 5, -1, NoGoal, false))
      else None
    else if state == 7 then
      if k.Reserved? then Some(Action(CallNonterm, 8, 94, NoGoal, false))
      else None
    else if state == 8 then
      if k.CurlyOpen? then Some(Action(Shift, 10, -1, NoGoal, false))
      else if k.KwIf? then Some(Action(Shift, 13, -1, NoGoal, false))
      else if k.KwWhile? then Some(Action(Shift, 18, -1, NoGoal, false))
      else if k.KwReturn? then Some(Action(Shift, 23, -1, NoGoal, false))
      else if k.KwVar? then Some(Action(Shift, 26, -1, NoGoal, false))
      else if k.Reserved? then Some(Action(CallNonterm, 11, 32, NoGoal, false))
      else if k.Semicolon? then Some(Action(Shift, 34, -1, NoGoal, false))
      else None
    else if state == 9 then
      if k.Reserved? then Some(Action(Return, -1, -1, NoGoal, false))
      else None
    else if state == 10 then
      if k.Reserved? then Some(Action(CallNonterm, 8, 95, NoGoal, false))
      else if k.CurlyClose? then Some(Action(Shift, 12, -1, NoGoal, false))
      else None
    else if state == 11 then
      if k.IntLit? then Some(Action(Shift, 36, -1, NoGoal, false))
      else if k.StrLit? then Some(Action(Shift, 37, -1, NoGoal, false))
      else if k.Ident? then Some(Action(Shift, 38, -1, NoGoal, false))
      else if k.ParenOpen? then Some(Action(Shift, 39, -1, NoGoal, false))
      else if k.Reserved? then Some(Action(CallNonterm, 11, 42, NoGoal, false))
      else if k.Amp? then Some(Action(Shift, 63, -1, NoGoal, false))
      else if k.Star? then Some(Action(Shift, 64, -1, NoGoal, false))
      else if k.Minus? then Some(Action(Shift, 65, -1, NoGoal, false))
      else if k.Negate? then Some(Action(Shift, 66, -1, NoGoal, false))
      else if k.Increment? then Some(Action(Shift, 67, -1, NoGoal, false))
      else if k.Decrement? then Some(Action(Shift, 68, -1, NoGoal, false))
      else None
    else None
  }

  /** The entries of states 12 to 23. */
  function Entries12To23(state: int, k: TokenKind): (a: Option<Action>)
    ensures a.Some? ==> EntryShape(state, a.value)
  {
    if state == 12 then
      if k.Reserved? then Some(Action(Reduce, -1, 9, StatementGoal(Compound), false))
      else None
    else if state == 13 then
      if k.ParenOpen? then Some(Action(Shift, 14, -1, NoGoal, false))
      else None
    else if state == 14 then
      if k.Reserved? then Some(Action(CallNonterm, 11, 15, NoGoal, false))
      else None
    else if state == 15 then
      if k.ParenClose? then Some(Action(Shift, 16, -1, NoGoal, false))
      else None
    else if state == 16 then
      if k.Reserved? then Some(Action(CallNonterm, 8, 17, NoGoal, false))
      else None
    else if state == 17 then
      if k.Reserved? then Some(Action(Reduce, -1, 9, StatementGoal(Conditional), false))
      else None
    else if state == 18 then
      if k.ParenOpen? then Some(Action(Shift, 19, -1, NoGoal, false))
      else None
    else if state == 19 then
      if k.Reserved? then Some(Action(CallNonterm, 11, 20, NoGoal, false))
      else None
    else if state == 20 then
      if k.ParenClose? then Some(Action(Shift, 21, -1, NoGoal, false))
      else None
    else if state == 21 then
      if k.Reserved? then Some(Action(CallNonterm, 8, 22, NoGoal, false))
      else None
    else if state == 22 then
      if k.Reserved? then Some(Action(Reduce, -1, 9, StatementGoal(Loop), false))
      else None
    else if state == 23 then
      if k.Reserved? then Some(Action(CallNonterm, 11, 24, NoGoal, false))
      else None
    else None
  }

  /** The entries of states 24 to 35. */
  function Entries24To35(state: int, k: TokenKind): (a: Option<Action>)
    ensures a.Some? ==> EntryShape(state, a.value)
  {
    if state == 24 then
      if k.Semicolon? then Some(Action(Shift, 25, -1, NoGoal, false))
      else None
    else if state == 25 then
      if k.Reserved? then Some(Action(Reduce, -1, 9, StatementGoal(ReturnStmt), false))
      else None
    else if state == 26 then
      if k.Ident? then Some(Action(Shift, 27, -1, NoGoal, false))
      else None
    else if state == 27 then
      if k.Semicolon? then Some(Action(Shift, 31, -1, NoGoal, false))
      else if k.Comma? then Some(Action(Shift, 28, -1, NoGoal, false))
      else if k.Equals? then Some(Action(Shift, 29, -1, NoGoal, false))
      else None
    else if state == 28 then
      if k.Ident? then Some(Action(Shift, 27, -1, NoGoal, false))
      else None
    else if state == 29 then
      if k.Reserved? then Some(Action(CallNonterm, 97, 30, NoGoal, false))
      else None
    else if state == 30 then
      if k.Comma? then Some(Action(Shift, 28, -1, NoGoal, false))
      else if k.Semicolon? then Some(Action(Shift, 31, -1, NoGoal, false))
      else None
    else if state == 31 then
      if k.Reserved? then Some(Action(Reduce, -1, 9, StatementGoal(VarDef), false))
      else None
    else if state == 32 then
      if k.Semicolon? then Some(Action(Shift, 33, -1, NoGoal, false))
      else None
    else if state == 33 then
      if k.Reserved? then Some(Action(Reduce, -1, 9, StatementGoal(ExpressionStmt), false))
      else None
    else if state == 34 then
      if k.Reserved? then Some(Action(Reduce, -1, 9, StatementGoal(Nop), false))
      else None
    else if state == 35 then
      if k.Reserved? then Some(Action(Return, -1, -1, NoGoal, false))
      else None
    else None
  }

  /** The entries of states 36 to 49. */
  function Entries36To49(state: int, k: TokenKind): (a: Option<Action>)
    ensures a.Some? ==> EntryShape(state, a.value)
  {
    if state == 36 then
      if k.Reserved? then Some(Action(Reduce, -1, 78, ExpressionGoal(IntLiteral), false))
      else None
    else if state == 37 then
      if k.Reserved? then Some(Action(Reduce, -1, 78, ExpressionGoal(StrLiteral), false))
      else None
    else if state == 38 then
      if k.Reserved? then Some(Action(Reduce, -1, 78, ExpressionGoal(Identifier), false))
      else None
    else if state == 39 then
      if k.Reserved? then Some(Action(CallNonterm, 11, 96, NoGoal, false))
      else None
    else if state == 41 then
      if k.Reserved? then Some(Action(Reduce, -1, 78, ExpressionGoal(Parenthesis), false))
      else None
    else if state == 42 then
      if k.SqBracketOpen? then Some(Action(Shift, 43, -1, NoGoal, false))
      else if k.ParenOpen? then Some(Action(Shift, 47, -1, NoGoal, false))
      else if k.Equals? then Some(Action(Shift, 52, -1, NoGoal, false))
      else if k.Plus? then Some(Action(Shift, 53, -1, NoGoal, false))
      else if k.Minus? then Some(Action(Shift, 54, -1, NoGoal, false))
      else if k.PlusEquals? then Some(Action(Shift, 55, -1, NoGoal, false))
      else if k.MinusEquals? then Some(Action(Shift, 56, -1, NoGoal, false))
      else if k.Or? then Some(Action(Shift, 57, -1, NoGoal, false))
      else if k.And? then Some(Action(Shift, 58, -1, NoGoal, false))
      else if k.Compare? then Some(Action(Shift, 59, -1, NoGoal, false))
      else if k.NegateEquals? then Some(Action(Shift, 60, -1, NoGoal, false))
      else if k.Comma? then Some(Action(Shift, 61, -1, NoGoal, false))
      else if k.Increment? then Some(Action(Shift, 71, -1, NoGoal, false))
      else if k.Decrement? then Some(Action(Shift, 72, -1, NoGoal, false))
      else if k.QuestionMark? then Some(Action(Shift, 74, -1, NoGoal, false))
      else if k.Reserved? then Some(Action(Return, -1, -1, NoGoal, false))
      else None
    else if state == 43 then
      if k.Reserved? then Some(Action(CallNonterm, 11, 44, NoGoal, false))
      else None
    else if state == 44 then
      if k.SqBracketClose? then Some(Action(Shift, 45, -1, NoGoal, false))
      else None
    else if state == 45 then
      if k.Reserved? then Some(Action(Reduce, -1, 78, ExpressionGoal(Indexing), false))
      else None
    else if state == 47 then
      if k.ParenClose? then Some(Action(Shift, 50, -1, NoGoal, false))
      else if k.Reserved? then Some(Action(CallNonterm, 97, 48, NoGoal, false))
      else None
    else if state == 48 then
      if k.Comma? then Some(Action(Shift, 49, -1, NoGoal, false))
      else if k.ParenClose? then Some(Action(Shift, 50, -1, NoGoal, false))
      else None
    else if state == 49 then
      if k.Reserved? then Some(Action(CallNonterm, 11, 48, NoGoal, false))
      else None
    else None
  }

  /** The entries of states 50 to 62. */
  function Entries50To62(state: int, k: TokenKind): (a: Option<Action>)
    ensures a.Some? ==> EntryShape(state, a.value)
  {
    if state == 50 then
      if k.Reserved? then Some(Action(Reduce, -1, 78, ExpressionGoal(FuncCall), false))
      else None
    else if state == 52 then
      if k.Reserved? then Some(Action(CallNonterm, 11, 62, NoGoal, false))
      else None
    else if state == 53 then
      if k.Reserved? then Some(Action(CallNonterm, 11, 79, NoGoal, false))
      else None
    else if state == 54 then
      if k.Reserved? then Some(Action(CallNonterm, 11, 80, NoGoal, false))
      else None
    else if state == 55 then
      if k.Reserved? then Some(Action(CallNonterm, 11, 81, NoGoal, false))
      else None
    else if state == 56 then
      if k.Reserved? then Some(Action(CallNonterm, 11, 82, NoGoal, false))
      else None
    else if state == 57 then
      if k.Reserved? then Some(Action(CallNonterm, 11, 83, NoGoal, false))
      else None
    else if state == 58 then
      if k.Reserved? then Some(Action(CallNonterm, 11, 84, NoGoal, false))
      else None
    else if state == 59 then
      if k.Reserved? then Some(Action(CallNonterm, 11, 85, NoGoal, false))
      else None
    else if state == 60 then
      if k.Reserved? then Some(Action(CallNonterm, 11, 86, NoGoal, false))
      else None
    else if state == 61 then
      if k.Reserved? then Some(Action(CallNonterm, 11, 87, NoGoal, false))
      else None
    else if state == 62 then
      if k.Reserved? then Some(Action(Reduce, -1, 78, ExpressionGoal(BinEquals), false))
      else None
    else None
  }

  /** The entries of states 63 to 78. */
  function Entries63To78(state: int, k: TokenKind): (a: Option<Action>)
    ensures a.Some? ==> EntryShape(state, a.value)
  {
    if state == 63 then
      if k.Reserved? then Some(Action(CallNonterm, 11, 69, NoGoal, false))
      else None
    else if state == 64 then
      if k.Reserved? then Some(Action(CallNonterm, 11, 88, NoGoal, false))
      else None
    else if state == 65 then
      if k.Reserved? then Some(Action(CallNonterm, 11, 89, NoGoal, false))
      else None
    else if state == 66 then
      if k.Reserved? then Some(Action(CallNonterm, 11, 90, NoGoal, false))
      else None
    else if state == 67 then
      if k.Reserved? then Some(Action(CallNonterm, 11, 91, NoGoal, false))
      else None
    else if state == 68 then
      if k.Reserved? then Some(Action(CallNonterm, 11, 92, NoGoal, false))
      else None
    else if state == 69 then
      if k.Reserved? then Some(Action(Reduce, -1, 78, ExpressionGoal(UnaryAmp), false))
      else None
    else if state == 71 then
      if k.Reserved? then Some(Action(Reduce, -1, 78, ExpressionGoal(UnaryPostIncr), false))
      else None
    else if state == 72 then
      if k.Reserved? then Some(Action(Reduce, -1, 78, ExpressionGoal(UnaryPostDecr), false))
      else None
    else if state == 74 then
      if k.Reserved? then Some(Action(CallNonterm, 11, 75, NoGoal, false))
      else None
    else if state == 75 then
      if k.Colon? then Some(Action(Shift, 76, -1, NoGoal, false))
      else None
    else if state == 76 then
      if k.Reserved? then Some(Action(CallNonterm, 11, 77, NoGoal, false))
      else None
    else if state == 77 then
      if k.Reserved? then Some(Action(Reduce, -1, 78, ExpressionGoal(Ternary), false))
      else None
    else if state == 78 then
      if k.SqBracketOpen? then Some(Action(CallNontermRec, 42, 78, NoGoal, false))
      else if k.ParenOpen? then Some(Action(CallNontermRec, 42, 78, NoGoal, false))
      else if k.Equals? then Some(Action(CallNontermRec, 42, 78, NoGoal, false))
      else if k.Plus? then Some(Action(CallNontermRec, 42, 78, NoGoal, false))
      else if k.Minus? then Some(Action(CallNontermRec, 42, 78, NoGoal, false))
      else if k.PlusEquals? then Some(Action(CallNontermRec, 42, 78, NoGoal, false))
      else if k.MinusEquals? then Some(Action(CallNontermRec, 42, 78, NoGoal, false))
      else if k.Or? then Some(Action(CallNontermRec, 42, 78, NoGoal, false))
      else if k.And? then Some(Action(CallNontermRec, 42, 78, NoGoal, false))
      else if k.Compare? then Some(Action(CallNontermRec, 42, 78, NoGoal, false))
      else if k.NegateEquals? then Some(Action(CallNontermRec, 42, 78, NoGoal, false))
      else if k.Comma? then Some(Action(CallNontermRec, 42, 78, NoGoal, false))
      else if k.Increment? then Some(Action(CallNontermRec, 42, 78, NoGoal, false))
      else if k.Decrement? then Some(Action(CallNontermRec, 42, 78, NoGoal, false))
      else if k.QuestionMark? then Some(Action(CallNontermRec, 42, 78, NoGoal, false))
      else if k.Reserved? then Some(Action(Return, -1, -1, NoGoal, false))
      else None
    else None
  }

  /** The entries of states 79 to 96. */
  function Entries79To96(state: int, k: TokenKind): (a: Option<Action>)
    ensures a.Some? ==> EntryShape(state, a.value)
  {
    if state == 79 then
      if k.Reserved? then Some(Action(Reduce, -1, 78, ExpressionGoal(BinPlus), false))
      else None
    else if state == 80 then
      if k.Reserved? then Some(Action(Reduce, -1, 78, ExpressionGoal(BinMinus), false))
      else None
    else if state == 81 then
      if k.Reserved? then Some(Action(Reduce, -1, 78, ExpressionGoal(BinPlusEquals), false))
      else None
    else if state == 82 then
      if k.Reserved? then Some(Action(Reduce, -1, 78, ExpressionGoal(BinMinusEquals), false))
      else None
    else if state == 83 then
      if k.Reserved? then Some(Action(Reduce, -1, 78, ExpressionGoal(BinOr), false))
      else None
    else if state == 84 then
      if k.Reserved? then Some(Action(Reduce, -1, 78, ExpressionGoal(BinAnd), false))
      else None
    else if state == 85 then
      if k.Reserved? then Some(Action(Reduce, -1, 78, ExpressionGoal(BinCompare), false))
      else None
    else if state == 86 then
      if k.Reserved? then Some(Action(Reduce, -1, 78, ExpressionGoal(BinNegateEquals), false))
      else None
    else if state == 87 then
      if k.Reserved? then Some(Action(Reduce, -1, 78, ExpressionGoal(BinComma), false))
      else None
    else if state == 88 then
      if k.Reserved? then Some(Action(Reduce, -1, 78, ExpressionGoal(UnaryStar), false))
      else None
    else if state == 89 then
      if k.Reserved? then Some(Action(Reduce, -1, 78, ExpressionGoal(UnaryMinus), false))
      else None
    else if state == 90 then
      if k.Reserved? then Some(Action(Reduce, -1, 78, ExpressionGoal(UnaryNegate), false))
      else None
    else if state == 91 then
      if k.Reserved? then Some(Action(Reduce, -1, 78, ExpressionGoal(UnaryPreIncr), false))
      else None
    else if state == 92 then
      if k.Reserved? then Some(Action(Reduce, -1, 78, ExpressionGoal(UnaryPreDecr), false))
      else None
    else if state == 93 then
      if k.Reserved? then Some(Action(CallNonterm, 1, 93, NoGoal, false))
      else if k.Eof? then Some(Action(Reduce, -1, 3, LibraryGoal, false))
      else None
    else if state == 94 then
      if k.Reserved? then Some(Action(Reduce, -1, 9, FunctionGoal, false))
      else None
    else if state == 95 then
      if k.Reserved? then Some(Action(CallNonterm, 8, 95, NoGoal, false))
      else if k.CurlyClose? then Some(Action(Shift, 12, -1, NoGoal, false))
      else None
    else if state == 96 then
      if k.ParenClose? then Some(Action(Shift, 41, -1, NoGoal, false))
      else None
    else None
  }

  /** The entries of states 97 to 109. */
  function Entries97To109(state: int, k: TokenKind): (a: Option<Action>)
    ensures a.Some? ==> EntryShape(state, a.value)
  {
    if state == 97 then
      if k.IntLit? then Some(Action(Shift, 100, -1, NoGoal, false))
      else if k.StrLit? then Some(Action(Shift, 101, -1, NoGoal, false))
      else if k.Ident? then Some(Action(Shift, 102, -1, NoGoal, false))
      else if k.ParenOpen? then Some(Action(Shift, 103, -1, NoGoal, false))
      else if k.Reserved? then Some(Action(CallNonterm, 97, 98, NoGoal, false))
      else if k.Amp? then Some(Action(Shift, 131, -1, NoGoal, false))
      else if k.Star? then Some(Action(Shift, 132, -1, NoGoal, false))
      else if k.Minus? then Some(Action(Shift, 133, -1, NoGoal, false))
      else if k.Negate? then Some(Action(Shift, 134, -1, NoGoal, false))
      else if k.Increment? then Some(Action(Shift, 135, -1, NoGoal, false))
      else if k.Decrement? then Some(Action(Shift, 136, -1, NoGoal, false))
      else None
    else if state == 98 then
      if k.SqBracketOpen? then Some(Action(Shift, 106, -1, NoGoal, false))
      else if k.ParenOpen? then Some(Action(Shift, 109, -1, NoGoal, false))
      else if k.Equals? then Some(Action(Shift, 113, -1, NoGoal, false))
      else if k.Plus? then Some(Action(Shift, 114, -1, NoGoal, false))
      else if k.Minus? then Some(Action(Shift, 115, -1, NoGoal, false))
      else if k.PlusEquals? then Some(Action(Shift, 116, -1, NoGoal, false))
      else if k.MinusEquals? then Some(Action(Shift, 117, -1, NoGoal, false))
      else if k.Or? then Some(Action(Shift, 118, -1, NoGoal, false))
      else if k.And? then Some(Action(Shift, 119, -1, NoGoal, false))
      else if k.Compare? then Some(Action(Shift, 120, -1, NoGoal, false))
      else if k.NegateEquals? then Some(Action(Shift, 121, -1, NoGoal, false))
      else if k.Increment? then Some(Action(Shift, 143, -1, NoGoal, false))
      else if k.Decrement? then Some(Action(Shift, 144, -1, NoGoal, false))
      else if k.QuestionMark? then Some(Action(Shift, 145, -1, NoGoal, false))
      else if k.Reserved? then Some(Action(Return, -1, -1, NoGoal, false))
      else None
    else if state == 99 then
      if k.SqBracketOpen? then Some(Action(CallNontermRec, 98, 99, NoGoal, false))
      else if k.ParenOpen? then Some(Action(CallNontermRec, 98, 99, NoGoal, false))
      else if k.Equals? then Some(Action(CallNontermRec, 98, 99, NoGoal, false))
      else if k.Plus? then Some(Action(CallNontermRec, 98, 99, NoGoal, false))
      else if k.Minus? then Some(Action(CallNontermRec, 98, 99, NoGoal, false))
      else if k.PlusEquals? then Some(Action(CallNontermRec, 98, 99, NoGoal, false))
      else if k.MinusEquals? then Some(Action(CallNontermRec, 98, 99, NoGoal, false))
      else if k.Or? then Some(Action(CallNontermRec, 98, 99, NoGoal, false))
      else if k.And? then Some(Action(CallNontermRec, 98, 99, NoGoal, false))
      else if k.Compare? then Some(Action(CallNontermRec, 98, 99, NoGoal, false))
      else if k.NegateEquals? then Some(Action(CallNontermRec, 98, 99, NoGoal, false))
      else if k.Increment? then Some(Action(CallNontermRec, 98, 99, NoGoal, false))
      else if k.Decrement? then Some(Action(CallNontermRec, 98, 99, NoGoal, false))
      else if k.QuestionMark? then Some(Action(CallNontermRec, 98, 99, NoGoal, false))
      else if k.Reserved? then Some(Action(Return, -1, -1, NoGoal, false))
      else None
    else if state == 100 then
      if k.Reserved? then Some(Action(Reduce, -1, 99, ExpressionGoal(IntLiteral), false))
      else None
    else if state == 101 then
      if k.Reserved? then Some(Action(Reduce, -1, 99, ExpressionGoal(StrLiteral), false))
      else None
    else if state == 102 then
      if k.Reserved? then Some(Action(Reduce, -1, 99, ExpressionGoal(Identifier), false))
      else None
    else if state == 103 then
      if k.Reserved? then Some(Action(CallNonterm, 11, 104, NoGoal, false))
      else None
    else if state == 104 then
      if k.ParenClose? then Some(Action(Shift, 105, -1, NoGoal, false))
      else None
    else if state == 105 then
      if k.Reserved? then Some(Action(Reduce, -1, 99, ExpressionGoal(Parenthesis), false))
      else None
    else if state == 106 then
      if k.Reserved? then Some(Action(CallNonterm, 11, 107, NoGoal, false))
      else None
    else if state == 107 then
      if k.SqBracketClose? then Some(Action(Shift, 108, -1, NoGoal, false))
      else None
    else if state == 108 then
      if k.Reserved? then Some(Action(Reduce, -1, 99, ExpressionGoal(Indexing), false))
      else None
    else if state == 109 then
      if k.ParenClose? then Some(Action(Shift, 112, -1, NoGoal, false))
      else if k.Reserved? then Some(Action(CallNonterm, 97, 110, NoGoal, false))
      else None
    else None
  }

  /** The entries of states 110 to 121. */
  function Entries110To121(state: int, k: TokenKind): (a: Option<Action>)
    ensures a.Some? ==> EntryShape(state, a.value)
  {
    if state == 110 then
      if k.Comma? then Some(Action(Shift, 111, -1, NoGoal, false))
      else if k.ParenClose? then Some(Action(Shift, 112, -1, NoGoal, false))
      else None
    else if state == 111 then
      if k.Reserved? then Some(Action(CallNonterm, 97, 110, NoGoal, false))
      else None
    else if state == 112 then
      if k.Reserved? then Some(Action(Reduce, -1, 99, ExpressionGoal(FuncCall), false))
      else None
    else if state == 113 then
      if k.Reserved? then Some(Action(CallNonterm, 97, 122, NoGoal, false))
      else None
    else if state == 114 then
      if k.Reserved? then Some(Action(CallNonterm, 97, 123, NoGoal, false))
      else None
    else if state == 115 then
      if k.Reserved? then Some(Action(CallNonterm, 97, 124, NoGoal, false))
      else None
    else if state == 116 then
      if k.Reserved? then Some(Action(CallNonterm, 97, 125, NoGoal, false))
      else None
    else if state == 117 then
      if k.Reserved? then Some(Action(CallNonterm, 97, 126, NoGoal, false))
      else None
    else if state == 118 then
      if k.Reserved? then Some(Action(CallNonterm, 97, 127, NoGoal, false))
      else None
    else if state == 119 then
      if k.Reserved? then Some(Action(CallNonterm, 97, 128, NoGoal, false))
      else None
    else if state == 120 then
      if k.Reserved? then Some(Action(CallNonterm, 97, 129, NoGoal, false))
      else None
    else if state == 121 then
      if k.Reserved? then Some(Action(CallNonterm, 97, 130, NoGoal, false))
      else None
    else None
  }

  /** The entries of states 122 to 134. */
  function Entries122To134(state: int, k: TokenKind): (a: Option<Action>)
    ensures a.Some? ==> EntryShape(state, a.value)
  {
    if state == 122 then
      if k.Reserved? then Some(Action(Reduce, -1, 99, ExpressionGoal(BinEquals), false))
      else None
    else if state == 123 then
      if k.Reserved? then Some(Action(Reduce, -1, 99, ExpressionGoal(BinPlus), false))
      else None
    else if state == 124 then
      if k.Reserved? then Some(Action(Reduce, -1, 99, ExpressionGoal(BinMinus), false))
      else None
    else if state == 125 then
      if k.Reserved? then Some(Action(Reduce, -1, 99, ExpressionGoal(BinPlusEquals), false))
      else None
    else if state == 126 then
      if k.Reserved? then Some(Action(Reduce, -1, 99, ExpressionGoal(BinMinusEquals), false))
      else None
    else if state == 127 then
      if k.Reserved? then Some(Action(Reduce, -1, 99, ExpressionGoal(BinOr), false))
      else None
    else if state == 128 then
      if k.Reserved? then Some(Action(Reduce, -1, 99, ExpressionGoal(BinAnd), false))
      else None
    else if state == 129 then
      if k.Reserved? then Some(Action(Reduce, -1, 99, ExpressionGoal(BinCompare), false))
      else None
    else if state == 130 then
      if k.Reserved? then Some(Action(Reduce, -1, 99, ExpressionGoal(BinNegateEquals), false))
      else None
    else if state == 131 then
      if k.Reserved? then Some(Action(CallNonterm, 97, 137, NoGoal, false))
      else None
    else if state == 132 then
      if k.Reserved? then Some(Action(CallNonterm, 97, 138, NoGoal, false))
      else None
    else if state == 133 then
      if k.Reserved? then Some(Action(CallNonterm, 97, 139, NoGoal, false))
      else None
    else if state == 134 then
      if k.Reserved? then Some(Action(CallNonterm, 97, 140, NoGoal, false))
      else None
    else None
  }

  /** The entries of states 135 to 148. */
  function Entries135To148(state: int, k: TokenKind): (a: Option<Action>)
    ensures a.Some? ==> EntryShape(state, a.value)
  {
    if state == 135 then
      if k.Reserved? then Some(Action(CallNonterm, 97, 141, NoGoal, false))
      else None
    else if state == 136 then
      if k.Reserved? then Some(Action(CallNonterm, 97, 142, NoGoal, false))
      else None
    else if state == 137 then
      if k.Reserved? then Some(Action(Reduce, -1, 99, ExpressionGoal(UnaryAmp), false))
      else None
    else if state == 138 then
      if k.Reserved? then Some(Action(Reduce, -1, 99, ExpressionGoal(UnaryStar), false))
      else None
    else if state == 139 then
      if k.Reserved? then Some(Action(Reduce, -1, 99, ExpressionGoal(UnaryMinus), false))
      else None
    else if state == 140 then
      if k.Reserved? then Some(Action(Reduce, -1, 99, ExpressionGoal(UnaryNegate), false))
      else None
    else if state == 141 then
      if k.Reserved? then Some(Action(Reduce, -1, 99, ExpressionGoal(UnaryPreIncr), false))
      else None
    else if state == 142 then
      if k.Reserved? then Some(Action(Reduce, -1, 99, ExpressionGoal(UnaryPreDecr), false))
      else None
    else if state == 143 then
      if k.Reserved? then Some(Action(Reduce, -1, 99, ExpressionGoal(UnaryPostIncr), false))
      else None
    else if state == 144 then
      if k.Reserved? then Some(Action(Reduce, -1, 99, ExpressionGoal(UnaryPostDecr), false))
      else None
    else if state == 145 then
      if k.Reserved? then Some(Action(CallNonterm, 97, 146, NoGoal, false))
      else None
    else if state == 146 then
      if k.Colon? then Some(Action(Shift, 147, -1, NoGoal, false))
      else None
    else if state == 147 then
      if k.Reserved? then Some(Action(CallNonterm, 97, 148, NoGoal, false))
      else None
    else if state == 148 then
      if k.Reserved? then Some(Action(Reduce, -1, 99, ExpressionGoal(Ternary), false))
      else None
    else None
  }

  /** The shape every entry of the table has: no entry uses JUMP; every REDUCE has a
      goal and a return state that is not negative; every statement reduction moves to
      state 9; every expression reduction moves to the end-of-expression state of its
      sub-grammar (78 for the states below 100, 99 for the others); and only states 3, 9,
      35, 42, 78, 98 and 99 return. */
  predicate EntryShape(state: int, a: Action) {
    a.kind != Jump &&
    (a.kind == Reduce ==> a.goal != NoGoal && a.ret >= 0) &&
    (a.goal.StatementGoal? ==> a.kind == Reduce && a.ret == 9) &&
    (a.goal.ExpressionGoal? ==> a.kind == Reduce && a.ret == (if state < 100 then 78 else 99)) &&
    (a.kind == Return ==> state == 3 || state == 9 || state == 35 || state == 42 || state == 78 || state == 98 || state == 99)
  }

  /** The corrected table: the one above with the entry for state 49 changed. After a
      comma in a call's argument list (state 48 on a comma goes to 49) the next argument
      is parsed by the comma-free sub-grammar at 97, as the first argument is at state 47
      and as every argument is in the other sub-grammar (states 109 and 111). */
  function Grammar(state: int, k: TokenKind): (a: Option<Action>)
  {
    if state == 49 && k == Reserved then Some(StateAction(CallNonterm, 97, 48))
    else GrammarAsWritten(state, k)
  }

  /** The table of a reading: as written, or corrected. */
  function Table(v: Variant, state: int, k: TokenKind): (a: Option<Action>)
    ensures a.Some? ==> EntryShape(state, a.value)
  {
    match v
    case AsWritten => GrammarAsWritten(state, k)
    case Corrected => Grammar(state, k)
  }

  datatype LookupError = StateMachineError(state: int, kind: TokenKind)

  /** choose_action: the entry for the exact key if there is one, else the wildcard entry
      of the state, else an error naming the state and the kind. */
  function ChooseAction(v: Variant, state: int, k: TokenKind): (r: Result<Action, LookupError>)
    ensures r.Ok? <==> Table(v, state, k).Some? || Table(v, state, Reserved).Some?
    ensures Table(v, state, k).Some? ==> r.Ok? && Some(r.value) == Table(v, state, k)
    ensures Table(v, state, k).None? && r.Ok? ==> Some(r.value) == Table(v, state, Reserved)
    ensures r.Err? ==> r.error == StateMachineError(state, k)
  {
    match Table(v, state, k)
    case Some(a) => Ok(a)
    case None =>
      match Table(v, state, Reserved)
      case Some(a) => Ok(a)
      case None => Err(StateMachineError(state, k))
  }

  /** The tokens after which an expression goes on (binary and postfix operators,
      indexing, a call, the ternary); the comma only in the sub-grammar at 11. */
  predicate ContinuesExpression(k: TokenKind, withComma: bool) {
    match k
    case SqBracketOpen | ParenOpen | Equals | Plus | Minus | PlusEquals | MinusEquals | Or | And
      | Compare | NegateEquals | Increment | Decrement | QuestionMark => true
    case Comma => withComma
    case _ => false
  }

  function ReturnAction(): (a: Action)
    ensures a.kind == Return && !a.loadNext && a.goal == NoGoal
  {
    GoalAction(Return, NoGoal, -1)
  }


  /** Every entry of either table has the shape above. */
  lemma {:induction false} EntriesAreShaped(v: Variant, state: int, k: TokenKind)
    requires Table(v, state, k).Some?
    ensures EntryShape(state, Table(v, state, k).value)
  {
  }

  /** Whatever choose_action returns has the shape above. */
  lemma {:induction false} ChosenEntriesAreShaped(v: Variant, state: int, k: TokenKind)
    ensures ChooseAction(v, state, k).Ok? ==> EntryShape(state, ChooseAction(v, state, k).value)
  {
    if Table(v, state, k).Some? {
      EntriesAreShaped(v, state, k);
    } else if Table(v, state, Reserved).Some? {
      EntriesAreShaped(v, state, Reserved);
    }
  }

  /** No entry is a JUMP: choose_action never returns one. */
  lemma {:induction false} NoJumpEntries(v: Variant, state: int, k: TokenKind)
    ensures ChooseAction(v, state, k).Ok? ==> ChooseAction(v, state, k).value.kind != Jump
  {
    ChosenEntriesAreShaped(v, state, k);
  }

  /** The two tables differ in the wildcard entry of state 49 alone, so choose_action
      gives the same answer in both readings at every other state. */
  lemma {:induction false} TablesDifferOnlyAt49(state: int, k: TokenKind)
    ensures (state, k) != (49, Reserved) ==> Table(Corrected, state, k) == Table(AsWritten, state, k)
    ensures Table(AsWritten, 49, Reserved) != Table(Corrected, 49, Reserved)
    ensures state != 49 ==> ChooseAction(Corrected, state, k) == ChooseAction(AsWritten, state, k)
  {
  }

  /** A program is a run of functions: state 0 calls the function grammar at 1 with 93 as
      the return state, 93 calls it again, and only end of input at 93 reduces the library
      and moves to 3, whose RETURN ends the parse. */
  lemma {:induction false} LibraryLoop(v: Variant, k: TokenKind)
    ensures k != Eof ==> ChooseAction(v, 0, k) == Ok(StateAction(CallNonterm, 1, 93))
    ensures k != Eof ==> ChooseAction(v, 93, k) == Ok(StateAction(CallNonterm, 1, 93))
    ensures ChooseAction(v, 93, Eof) == Ok(GoalAction(Reduce, LibraryGoal, 3))
    ensures ChooseAction(v, 3, k) == Ok(LoadAction(Return, true))
  {
    LibraryCalls(v, k);
    LibraryEnd(v);
    AcceptState(v, k);
  }

  /** Any token but end of input at 0 or 93 calls the function grammar, returning to 93. */
  lemma {:induction false} LibraryCalls(v: Variant, k: TokenKind)
    ensures k != Eof ==> ChooseAction(v, 0, k) == Ok(StateAction(CallNonterm, 1, 93))
    ensures k != Eof ==> ChooseAction(v, 93, k) == Ok(StateAction(CallNonterm, 1, 93))
  {
  }

  /** End of input after the functions reduces the library, returning to 3. */
  lemma {:induction false} LibraryEnd(v: Variant)
    ensures ChooseAction(v, 93, Eof) == Ok(GoalAction(Reduce, LibraryGoal, 3))
  {
  }

  /** State 3 returns and loads the next token whatever the lookahead. */
  lemma {:induction false} AcceptState(v: Variant, k: TokenKind)
    ensures ChooseAction(v, 3, k) == Ok(LoadAction(Return, true))
  {
  }

  /** State 9, where every statement reduction lands, only returns. */
  lemma {:induction false} StatementEndReturns(v: Variant, k: TokenKind)
    ensures ChooseAction(v, 9, k) == Ok(LoadAction(Return, false))
  {
  }

  /** The row of 78 in the table as written. */
  lemma {:induction false} Row78(k: TokenKind)
    requires k != Reserved
    ensures GrammarAsWritten(78, k) ==
      if ContinuesExpression(k, true) then Some(StateAction(CallNontermRec, 42, 78)) else None
  {
    Entries78(k);
    assert GrammarAsWritten(78, k) == Entries63To78(78, k);
  }

  lemma {:induction false} Entries78(k: TokenKind)
    requires k != Reserved
    ensures Entries63To78(78, k) ==
      if ContinuesExpression(k, true) then Some(StateAction(CallNontermRec, 42, 78)) else None
  {
  }

  /** The row of 99 in the table as written. */
  lemma {:induction false} Row99(k: TokenKind)
    requires k != Reserved
    ensures GrammarAsWritten(99, k) ==
      if ContinuesExpression(k, false) then Some(StateAction(CallNontermRec, 98, 99)) else None
  {
    Entries99(k);
    assert GrammarAsWritten(99, k) == Entries97To109(99, k);
  }

  lemma {:induction false} Entries99(k: TokenKind)
    requires k != Reserved
    ensures Entries97To109(99, k) ==
      if ContinuesExpression(k, false) then Some(StateAction(CallNontermRec, 98, 99)) else None
  {
  }

  /** At 78 an operator, a bracket, a parenthesis or a question mark re-enters the
      expression at 42, adopting the expression just built; anything else returns. */
  lemma {:induction false} ExpressionEnd(v: Variant, k: TokenKind)
    requires k != Reserved
    ensures ChooseAction(v, 78, k) ==
      if ContinuesExpression(k, true) then Ok(StateAction(CallNontermRec, 42, 78)) else Ok(ReturnAction())
  {
    Row78(k);
    TablesDifferOnlyAt49(78, k);
    assert Table(v, 78, Reserved) == Some(ReturnAction());
  }

  /** State 99 mirrors 78 into 98, except that a comma ends the expression there. */
  lemma {:induction false} ExpressionEndNoComma(v: Variant, k: TokenKind)
    requires k != Reserved
    ensures ChooseAction(v, 99, k) ==
      if ContinuesExpression(k, false) then Ok(StateAction(CallNontermRec, 98, 99)) else Ok(ReturnAction())
  {
    Row99(k);
    TablesDifferOnlyAt49(99, k);
    assert Table(v, 99, Reserved) == Some(ReturnAction());
  }

  /** Variable initialisers are parsed by the sub-grammar at 97, which has no comma
      operator, so a comma after an initialiser ends it and continues the definition. */
  lemma {:induction false} InitialiserStopsAtComma(v: Variant)
    ensures ChooseAction(v, 29, Ident) == Ok(StateAction(CallNonterm, 97, 30))
    ensures Table(v, 98, Comma).None? && ChooseAction(v, 99, Comma) == Ok(ReturnAction())
    ensures ChooseAction(v, 30, Comma) == Ok(StateAction(Shift, 28, -1))
    ensures ChooseAction(v, 78, Comma) == Ok(StateAction(CallNontermRec, 42, 78))
  {
    assert ChooseAction(v, 29, Ident) == Ok(StateAction(CallNonterm, 97, 30)) by { }
    assert Table(v, 98, Comma).None? && ChooseAction(v, 99, Comma) == Ok(ReturnAction()) by { }
    assert ChooseAction(v, 30, Comma) == Ok(StateAction(Shift, 28, -1)) by { }
  }

  /** The wildcard entries of 11 and 97 call the same state again without consuming the
      lookahead, so a token that cannot start an expression never leaves them. */
  lemma {:induction false} WildcardReentersItself(v: Variant, k: TokenKind)
    requires Table(v, 11, k).None? && Table(v, 97, k).None?
    ensures ChooseAction(v, 11, k) == Ok(StateAction(CallNonterm, 11, 42))
    ensures ChooseAction(v, 97, k) == Ok(StateAction(CallNonterm, 97, 98))
  {
  }

  /** As written, the arguments of a call after the first are parsed by the sub-grammar
      at 11, which continues an expression on a comma: in f(a, b, c) the second argument
      swallows the comma and becomes the comma expression (b, c). */
  lemma {:induction false} SecondArgumentTakesCommaAsWritten()
    ensures ChooseAction(AsWritten, 47, Ident) == Ok(StateAction(CallNonterm, 97, 48))
    ensures ChooseAction(AsWritten, 48, Comma) == Ok(StateAction(Shift, 49, -1))
    ensures ChooseAction(AsWritten, 49, Ident) == Ok(StateAction(CallNonterm, 11, 48))
    ensures ChooseAction(AsWritten, 78, Comma) == Ok(StateAction(CallNontermRec, 42, 78))
    ensures ChooseAction(AsWritten, 42, Comma) == Ok(StateAction(Shift, 61, -1))
  {
  }

  /** In the corrected table every argument of a call, in either sub-grammar, is parsed
      by the comma-free sub-grammar at 97 and returns to the state that takes the comma
      between arguments or the closing parenthesis. */
  lemma {:induction false} ArgumentsAreCommaFree(state: int)
    requires state in {47, 49, 109, 111}
    ensures ChooseAction(Corrected, state, Reserved).Ok?
    ensures ChooseAction(Corrected, state, Reserved).value.kind == CallNonterm
    ensures ChooseAction(Corrected, state, Reserved).value.next == 97
    ensures ChooseAction(Corrected, state, Reserved).value.ret == (if state < 100 then 48 else 110)
    ensures ChooseAction(Corrected, 98, Comma) == Ok(ReturnAction()) && ChooseAction(Corrected, 99, Comma) == Ok(ReturnAction())
  {
  }
}
