/** Statements and variable definitions (statement.h, statement.cpp). */
module Statements {
  import opened Wrappers
  import opened Expressions

  /** STATEMENT_TYPE. */
  datatype StatementKind = Compound | Conditional | Loop | ReturnStmt | VarDef | ExpressionStmt | Nop

  /** A defined variable: initialised exactly when it carries an initialiser. */
  datatype Variable = Variable(isInitialized: bool, name: string, init: Option<Expr>)

  /** Variable(name): declared without an initialiser. */
  function UninitVariable(name: string): (v: Variable)
    ensures !v.isInitialized && v.name == name && v.init == None
  {
    Variable(false, name, None)
  }

  /** Variable(name, expr): declared with an initialiser. */
  function InitVariable(name: string, e: Expr): (v: Variable)
    ensures v.isInitialized && v.name == name && v.init == Some(e)
  {
    Variable(true, name, Some(e))
  }

  /** A Statement: its kind and the three optional parts (the body list, the expression,
      the variable list), each set only by the constructors that call for it. */
  datatype Statement = Statement(
    kind: StatementKind,
    body: Option<seq<Statement>>,
    expr: Option<Expr>,
    vars: Option<seq<Variable>>)

  /** The parts each kind is built with. */
  predicate Shaped(s: Statement) {
    match s.kind
    case Compound => s.body.Some? && s.expr.None? && s.vars.None?
    case Conditional | Loop => s.body.Some? && |s.body.value| == 1 && s.expr.Some? && s.vars.None?
    case ReturnStmt | ExpressionStmt => s.body.None? && s.expr.Some? && s.vars.None?
    case VarDef => s.body.None? && s.expr.None? && s.vars.Some?
    case Nop => s.body.None? && s.expr.None? && s.vars.None?
  }

  /** The logic_error messages of the constructors. */
  datatype StatementError =
    | NotCompound        // statement list given with a kind other than COMPOUND
    | NotBranch          // expression and statement given with a kind other than CONDITIONAL or LOOP
    | NotExprKind        // expression given with a kind other than RETURN or EXPRESSION
    | NotVarDef          // variable list given with a kind other than VAR_DEF
    | NotNop             // no parts given with a kind other than NOP

  /** Statement(type, statements): a compound statement holding the statements in order. */
  function MakeCompound(k: StatementKind, stmts: seq<Statement>): (r: Result<Statement, StatementError>)
    ensures r.Ok? <==> k == Compound
    ensures r.Ok? ==> r.value.kind == Compound && r.value.body == Some(stmts) && Shaped(r.value)
    ensures r.Err? ==> r.error == NotCompound
  {
    if k != Compound then Err(NotCompound) else Ok(Statement(Compound, Some(stmts), None, None))
  }

  /** Statement(statements). */
  function CompoundStmt(stmts: seq<Statement>): (s: Statement)
    ensures Ok(s) == MakeCompound(Compound, stmts)
  {
    Statement(Compound, Some(stmts), None, None)
  }

  /** Statement(type, condition, statement): an if or while statement whose body list
      holds exactly the one statement. */
  function MakeBranch(k: StatementKind, cond: Expr, stmt: Statement): (r: Result<Statement, StatementError>)
    ensures r.Ok? <==> k == Conditional || k == Loop
    ensures r.Ok? ==> r.value.kind == k && r.value.body == Some([stmt]) && r.value.expr == Some(cond) && Shaped(r.value)
    ensures r.Err? ==> r.error == NotBranch
  {
    if k != Conditional && k != Loop then Err(NotBranch)
    else Ok(Statement(k, Some([stmt]), Some(cond), None))
  }

  /** Statement(type, expr): a return or expression statement. */
  function MakeExprStmt(k: StatementKind, e: Expr): (r: Result<Statement, StatementError>)
    ensures r.Ok? <==> k == ReturnStmt || k == ExpressionStmt
    ensures r.Ok? ==> r.value.kind == k && r.value.expr == Some(e) && Shaped(r.value)
    ensures r.Err? ==> r.error == NotExprKind
  {
    if k != ReturnStmt && k != ExpressionStmt then Err(NotExprKind)
    else Ok(Statement(k, None, Some(e), None))
  }

  /** Statement(type, vars): a variable definition holding the variables in order. */
  function MakeVarDef(k: StatementKind, vars: seq<Variable>): (r: Result<Statement, StatementError>)
    ensures r.Ok? <==> k == VarDef
    ensures r.Ok? ==> r.value.kind == VarDef && r.value.vars == Some(vars) && Shaped(r.value)
    ensures r.Err? ==> r.error == NotVarDef
  {
    if k != VarDef then Err(NotVarDef) else Ok(Statement(VarDef, None, None, Some(vars)))
  }

  /** Statement(vars). */
  function VarDefStmt(vars: seq<Variable>): (s: Statement)
    ensures Ok(s) == MakeVarDef(VarDef, vars)
  {
    Statement(VarDef, None, None, Some(vars))
  }

  /** Statement(type) with no parts: only NOP. */
  function MakeNop(k: StatementKind): (r: Result<Statement, StatementError>)
    ensures r.Ok? <==> k == Nop
    ensures r.Ok? ==> r.value == NopStmt() && Shaped(r.value)
    ensures r.Err? ==> r.error == NotNop
  {
    if k != Nop then Err(NotNop) else Ok(NopStmt())
  }

  /** Statement(): the no-op statement. */
  function NopStmt(): (s: Statement)
    ensures s.kind == Nop && s.body == None && s.expr == None && s.vars == None
  {
    Statement(Nop, None, None, None)
  }

  /** A Statement whose parts are replaced in place by the setters. */
  class StatementCell {
    var kind: StatementKind
    var body: Option<seq<Statement>>
    var expr: Option<Expr>
    var vars: Option<seq<Variable>>

    /** The statement the cell currently holds. */
    function Value(): (s: Statement)
      reads this
      ensures s.kind == kind && s.body == body && s.expr == expr && s.vars == vars
    {
      Statement(kind, body, expr, vars)
    }

    constructor (s: Statement)
      ensures Value() == s
    {
      kind, body, expr, vars := s.kind, s.body, s.expr, s.vars;
    }

    /** setbody(statements): the body becomes the given list. */
    method SetBody(stmts: seq<Statement>)
      modifies this
      ensures Value() == old(Value()).(body := Some(stmts))
    {
      body := Some(stmts);
    }

    /** setbody(statement): clears the existing body list and pushes the one statement;
        a statement without a body list is not accepted (the source dereferences it). */
    method SetBodyTo(stmt: Statement)
      requires body.Some?
      modifies this
      ensures Value() == old(Value()).(body := Some([stmt]))
    {
      body := Some([stmt]);
    }

    /** setexpr(expr): the expression becomes the given one. */
    method SetExpr(e: Expr)
      modifies this
      ensures Value() == old(Value()).(expr := Some(e))
    {
      expr := Some(e);
    }

    /** setvars(vars): the variable list becomes the given one. */
    method SetVars(vs: seq<Variable>)
      modifies this
      ensures Value() == old(Value()).(vars := Some(vs))
    {
      vars := Some(vs);
    }
  }

  /** Setting the body of a branch statement to one statement keeps its shape, and setting
      the expression of a return or expression statement keeps its shape. */
  lemma {:induction false} SettersKeepShape(s: Statement, stmt: Statement, e: Expr)
    requires Shaped(s)
    ensures (s.kind == Conditional || s.kind == Loop) ==> Shaped(s.(body := Some([stmt])))
    ensures s.expr.Some? ==> Shaped(s.(expr := Some(e)))
    ensures s.kind == Compound ==> Shaped(s.(body := Some([stmt])))
  {
  }
}
