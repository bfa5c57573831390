/** Expression nodes (expression.h, expression.cpp): the EXPR_TYPE kinds, the operator
    tables that drive precedence resolution, and the validating constructors. */
module Expressions {
  import opened Wrappers

  /** EXPR_TYPE: none, three single-token kinds, three grouping kinds, ten binary, eight
      unary and one ternary operator. */
  datatype ExprKind =
    | NoExpr
    | IntLiteral | StrLiteral | Identifier
    | Parenthesis | Indexing | FuncCall
    | BinEquals | BinPlus | BinMinus | BinPlusEquals | BinMinusEquals
    | BinOr | BinAnd | BinCompare | BinNegateEquals | BinComma
    | UnaryAmp | UnaryStar | UnaryMinus | UnaryNegate | UnaryPreIncr
    | UnaryPreDecr | UnaryPostIncr | UnaryPostDecr
    | Ternary

  /** EXPR_OPCOUNT: the arity category of a kind. */
  datatype OpCount = UnaryOp | BinaryOp | TernaryOp | Grouping | SingleToken

  /** ASSOC. */
  datatype Assoc = Left | Right

  predicate IsBinaryKind(k: ExprKind) {
    k.BinEquals? || k.BinPlus? || k.BinMinus? || k.BinPlusEquals? || k.BinMinusEquals? ||
    k.BinOr? || k.BinAnd? || k.BinCompare? || k.BinNegateEquals? || k.BinComma?
  }

  predicate IsUnaryKind(k: ExprKind) {
    k.UnaryAmp? || k.UnaryStar? || k.UnaryMinus? || k.UnaryNegate? || k.UnaryPreIncr? ||
    k.UnaryPreDecr? || k.UnaryPostIncr? || k.UnaryPostDecr?
  }

  /** op_opcount: every kind has an entry; indexing is a grouping, like parentheses and
      calls, and the kind NONE counts as a single token. */
  function OpCountOf(k: ExprKind): OpCount {
    if k.NoExpr? || k.IntLiteral? || k.StrLiteral? || k.Identifier? then SingleToken
    else if k.Parenthesis? || k.Indexing? || k.FuncCall? then Grouping
    else if k.Ternary? then TernaryOp
    else if IsBinaryKind(k) then BinaryOp
    else UnaryOp
  }

  /** op_prec, read with map::operator[]: kinds without an entry read as 0. */
  function Prec(k: ExprKind): int {
    if k.BinComma? then 0
    else if k.Ternary? || k.BinEquals? || k.BinPlusEquals? || k.BinMinusEquals? then 1
    else if k.BinOr? then 2
    else if k.BinAnd? then 3
    else if k.BinCompare? || k.BinNegateEquals? then 4
    else if k.BinPlus? || k.BinMinus? then 5
    else if k.UnaryAmp? || k.UnaryStar? || k.UnaryNegate? || k.UnaryMinus? || k.UnaryPreIncr? || k.UnaryPreDecr? then 6
    else if k.UnaryPostIncr? || k.UnaryPostDecr? || k.Indexing? then 7
    else 0
  }

  /** op_assoc, read with map::operator[]: kinds without an entry read as LEFT. */
  function AssocOf(k: ExprKind): Assoc {
    if k.Ternary? || k.BinEquals? || k.BinPlusEquals? || k.BinMinusEquals? then Right
    else if k.UnaryAmp? || k.UnaryStar? || k.UnaryNegate? || k.UnaryMinus? || k.UnaryPreIncr? || k.UnaryPreDecr? then Right
    else Left
  }

  /** The operator categories, the only ones operand_count is asked about. */
  predicate IsOperator(c: OpCount) {
    c == UnaryOp || c == BinaryOp || c == TernaryOp
  }

  /** operand_count: how many operands an operator of each category takes. */
  function OperandCount(c: OpCount): (n: nat)
    requires IsOperator(c)
    ensures 1 <= n <= 3
  {
    match c
    case UnaryOp => 1
    case BinaryOp => 2
    case TernaryOp => 3
  }

  /** What an Expression holds besides its kind: nothing, an integer, a string, or its
      sub-expressions (the three shared pointers, at most one of which is set). */
  datatype Payload =
    | NoPayload
    | IntVal(i: int)
    | StrVal(s: string)
    | Children(exprs: seq<Expr>)

  /** An Expression: its kind, its arity category (gentype) and its payload. */
  datatype Expr = Expr(kind: ExprKind, gentype: OpCount, payload: Payload)

  /** Operator and grouping nodes: their sub-expressions; other nodes have none. */
  function ChildrenOf(e: Expr): seq<Expr> {
    if e.payload.Children? then e.payload.exprs else []
  }

  /** The number of sub-expressions each kind is built with; calls take one or more. */
  predicate ArityFits(k: ExprKind, n: nat) {
    match OpCountOf(k)
    case SingleToken => false
    case UnaryOp => n == 1
    case BinaryOp => n == 2
    case TernaryOp => n == 3
    case Grouping => if k == FuncCall then n >= 1 else if k == Parenthesis then n == 1 else n == 2
  }

  /** The shape the constructors guarantee, all the way down: gentype is op_opcount of the
      kind, and the payload is the one the kind calls for. */
  predicate WellFormed(e: Expr) {
    e.gentype == OpCountOf(e.kind) &&
    match e.payload
    case NoPayload => e.kind == NoExpr
    case IntVal(_) => e.kind == IntLiteral
    case StrVal(_) => e.kind == Identifier || e.kind == StrLiteral
    case Children(cs) => ArityFits(e.kind, |cs|) && forall i :: 0 <= i < |cs| ==> WellFormed(cs[i])
  }

  /** The logic_error messages of the constructors. */
  datatype ExprError =
    | NotIntLiteral         // integer given with a kind other than INT_LITERAL
    | NotStringKind         // string given with a kind other than STR_LITERAL or IDENTIFIER
    | NotFuncCall           // callee and arguments given with a kind other than FUNC_CALL
    | NotUnaryKind          // one operand given with a kind other than parenthesis or unary
    | NotBinaryKind         // two operands given with a kind other than indexing or binary
    | NotTernaryKind        // three operands given with a kind other than TERNARY
    | WrongOperandCount     // an operand vector that is not one, two or three long

  /** Expression(): kind NONE. */
  function DefaultExpr(): (e: Expr)
    ensures e.kind == NoExpr && e.payload == NoPayload && WellFormed(e)
  {
    Expr(NoExpr, OpCountOf(NoExpr), NoPayload)
  }

  /** Expression(type, int): only INT_LITERAL carries an integer. */
  function MakeIntExpr(k: ExprKind, v: int): (r: Result<Expr, ExprError>)
    ensures r.Ok? <==> k == IntLiteral
    ensures r.Ok? ==> r.value.kind == IntLiteral && r.value.payload == IntVal(v) && WellFormed(r.value)
    ensures r.Err? ==> r.error == NotIntLiteral
  {
    if k != IntLiteral then Err(NotIntLiteral)
    else Ok(Expr(IntLiteral, OpCountOf(IntLiteral), IntVal(v)))
  }

  /** Expression(int): an integer literal. */
  function IntExpr(v: int): (e: Expr)
    ensures e.kind == IntLiteral && e.gentype == SingleToken && e.payload == IntVal(v) && WellFormed(e)
  {
    Expr(IntLiteral, OpCountOf(IntLiteral), IntVal(v))
  }

  /** Expression(type, string): accepts STR_LITERAL and IDENTIFIER, and stores the kind
      IDENTIFIER for both, so a string literal loses its kind. */
  function MakeStrExpr(k: ExprKind, s: string): (r: Result<Expr, ExprError>)
    ensures r.Ok? <==> k == StrLiteral || k == Identifier
    ensures r.Ok? ==> r.value.kind == Identifier && r.value.payload == StrVal(s) && WellFormed(r.value)
    ensures r.Err? ==> r.error == NotStringKind
  {
    if k != StrLiteral && k != Identifier then Err(NotStringKind)
    else Ok(Expr(Identifier, OpCountOf(Identifier), StrVal(s)))
  }

  /** Expression(type, callee, args): the children are the callee and then the
      arguments, in order. */
  function MakeCallExpr(k: ExprKind, callee: Expr, args: seq<Expr>): (r: Result<Expr, ExprError>)
    ensures r.Ok? <==> k == FuncCall
    ensures r.Ok? ==>
      r.value.kind == FuncCall && r.value.gentype == Grouping &&
      ChildrenOf(r.value) == [callee] + args && |ChildrenOf(r.value)| == 1 + |args|
    ensures r.Ok? && WellFormed(callee) && (forall i :: 0 <= i < |args| ==> WellFormed(args[i])) ==>
      WellFormed(r.value)
    ensures r.Err? ==> r.error == NotFuncCall
  {
    if k != FuncCall then Err(NotFuncCall)
    else Ok(Expr(FuncCall, OpCountOf(FuncCall), Children([callee] + args)))
  }

  /** Expression(callee, args): a call. */
  function CallExpr(callee: Expr, args: seq<Expr>): (e: Expr)
    ensures Ok(e) == MakeCallExpr(FuncCall, callee, args)
  {
    Expr(FuncCall, OpCountOf(FuncCall), Children([callee] + args))
  }

  /** Expression(type, expr): parentheses or one of the eight unary operators. */
  function MakeUnaryExpr(k: ExprKind, operand: Expr): (r: Result<Expr, ExprError>)
    ensures r.Ok? <==> k == Parenthesis || IsUnaryKind(k)
    ensures r.Ok? ==> r.value.kind == k && r.value.gentype == OpCountOf(k) && ChildrenOf(r.value) == [operand]
    ensures r.Ok? && WellFormed(operand) ==> WellFormed(r.value)
    ensures r.Err? ==> r.error == NotUnaryKind
  {
    if k != Parenthesis && !IsUnaryKind(k) then Err(NotUnaryKind)
    else Ok(Expr(k, OpCountOf(k), Children([operand])))
  }

  /** Expression(type, expr1, expr2): indexing or one of the ten binary operators; the
      operands are kept in the order given. */
  function MakeBinaryExpr(k: ExprKind, lhs: Expr, rhs: Expr): (r: Result<Expr, ExprError>)
    ensures r.Ok? <==> k == Indexing || IsBinaryKind(k)
    ensures r.Ok? ==> r.value.kind == k && r.value.gentype == OpCountOf(k) && ChildrenOf(r.value) == [lhs, rhs]
    ensures r.Ok? && WellFormed(lhs) && WellFormed(rhs) ==> WellFormed(r.value)
    ensures r.Err? ==> r.error == NotBinaryKind
  {
    if k != Indexing && !IsBinaryKind(k) then Err(NotBinaryKind)
    else Ok(Expr(k, OpCountOf(k), Children([lhs, rhs])))
  }

  /** Expression(type, cond, true, false): only TERNARY; the children are the condition,
      the true branch and the false branch. */
  function MakeTernaryExpr(k: ExprKind, cond: Expr, t: Expr, f: Expr): (r: Result<Expr, ExprError>)
    ensures r.Ok? <==> k == Ternary
    ensures r.Ok? ==> r.value.kind == Ternary && r.value.gentype == TernaryOp && ChildrenOf(r.value) == [cond, t, f]
    ensures r.Ok? && WellFormed(cond) && WellFormed(t) && WellFormed(f) ==> WellFormed(r.value)
    ensures r.Err? ==> r.error == NotTernaryKind
  {
    if k != Ternary then Err(NotTernaryKind)
    else Ok(Expr(Ternary, OpCountOf(Ternary), Children([cond, t, f])))
  }

  /** Expression(cond, true, false): a ternary. */
  function TernaryExpr(cond: Expr, t: Expr, f: Expr): (e: Expr)
    ensures Ok(e) == MakeTernaryExpr(Ternary, cond, t, f)
  {
    Expr(Ternary, OpCountOf(Ternary), Children([cond, t, f]))
  }

  function Reverse<T>(s: seq<T>): (r: seq<T>)
    ensures |r| == |s| && forall i :: 0 <= i < |s| ==> r[i] == s[|s| - 1 - i]
  {
    if s == [] then [] else Reverse(s[1..]) + [s[0]]
  }

  /** Reversing twice gives back the original order. */
  lemma {:induction false} ReverseReverse<T>(s: seq<T>)
    ensures Reverse(Reverse(s)) == s
  {
    var r := Reverse(s);
    assert forall i :: 0 <= i < |s| ==> Reverse(r)[i] == r[|s| - 1 - i] == s[i];
  }

  /** Expression(type, operands): the operand-vector constructor used by precedence
      resolution. The operands arrive in the order they were popped off the output stack,
      the last operand first, so the children are the operands reversed; one, two or three
      operands go to the unary, binary or ternary constructor. */
  function MakeOperatorExpr(k: ExprKind, operands: seq<Expr>): (r: Result<Expr, ExprError>)
    ensures r.Ok? ==> r.value.kind == k && r.value.gentype == OpCountOf(k) && ChildrenOf(r.value) == Reverse(operands)
    ensures r.Ok? <==>
      (|operands| == 1 && (k == Parenthesis || IsUnaryKind(k))) ||
      (|operands| == 2 && (k == Indexing || IsBinaryKind(k))) ||
      (|operands| == 3 && k == Ternary)
    ensures r.Ok? && (forall i :: 0 <= i < |operands| ==> WellFormed(operands[i])) ==> WellFormed(r.value)
  {
    if |operands| == 1 then MakeUnaryExpr(k, operands[0])
    else if |operands| == 2 then MakeBinaryExpr(k, operands[1], operands[0])
    else if |operands| == 3 then MakeTernaryExpr(k, operands[2], operands[1], operands[0])
    else Err(WrongOperandCount)
  }

  /** EXPR_TYPE falls into the five arity categories as declared: 3 single-token kinds
      besides NONE, 3 groupings, 10 binary, 8 unary and 1 ternary operator. */
  lemma {:induction false} ArityCategories(k: ExprKind)
    ensures OpCountOf(k) == BinaryOp <==> IsBinaryKind(k)
    ensures OpCountOf(k) == UnaryOp <==> IsUnaryKind(k)
    ensures OpCountOf(k) == TernaryOp <==> k == Ternary
    ensures OpCountOf(k) == Grouping <==> k in {Parenthesis, Indexing, FuncCall}
    ensures OpCountOf(k) == SingleToken <==> k in {NoExpr, IntLiteral, StrLiteral, Identifier}
  {
  }

  /** The operator ladder: comma < assignments and ternary < || < && < equality <
      additive < prefix unary < postfix and indexing. */
  lemma {:induction false} PrecedenceLadder()
    ensures Prec(BinComma) < Prec(BinEquals) < Prec(BinOr) < Prec(BinAnd) < Prec(BinCompare)
      < Prec(BinPlus) < Prec(UnaryMinus) < Prec(UnaryPostIncr)
    ensures Prec(Ternary) == Prec(BinEquals) == Prec(BinPlusEquals) == Prec(BinMinusEquals)
    ensures Prec(BinCompare) == Prec(BinNegateEquals) && Prec(BinPlus) == Prec(BinMinus)
    ensures Prec(UnaryPostIncr) == Prec(UnaryPostDecr) == Prec(Indexing)
  {
  }

  /** Assignments, the ternary and the prefix unary operators group to the right; every
      other operator groups to the left. */
  lemma {:induction false} Associativity(k: ExprKind)
    requires IsOperator(OpCountOf(k))
    ensures AssocOf(k) == Right <==>
      k in {Ternary, BinEquals, BinPlusEquals, BinMinusEquals} ||
      (IsUnaryKind(k) && k != UnaryPostIncr && k != UnaryPostDecr)
  {
  }

  /** Every operator sits at the precedence of its group: binary operators at 0 to 5,
      prefix unary at 6, postfix at 7. */
  lemma {:induction false} OperatorPrecedenceRange(k: ExprKind)
    requires IsOperator(OpCountOf(k))
    ensures IsBinaryKind(k) ==> 0 <= Prec(k) <= 5
    ensures IsUnaryKind(k) ==> Prec(k) == (if k == UnaryPostIncr || k == UnaryPostDecr then 7 else 6)
    ensures k == Ternary ==> Prec(k) == 1
  {
  }
}
