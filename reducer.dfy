/** The reductions of the parser (parser.h, reduce_expression to reduce): each takes the
    fragments of one frame as they were popped off the parser stack, the most recent
    first, and builds one piece of syntax tree in source order. A fragment the source would
    dereference without it being there (a missing element, a wrong tag) is an error. */
module Reducer {
  import opened Wrappers
  import opened Tokens
  import opened Expressions
  import opened Statements
  import opened Program
  import opened Fragments
  import opened Grammar
  import opened Variants

  datatype ReduceError =
    | MalformedFragments               // a fragment the reduction reads is missing or of another tag
    | BadExpression(e: ExprError)      // an Expression constructor refused its arguments
    | BadStatement(s: StatementError)  // a Statement constructor refused its arguments
    | MissingName                      // a function without any identifier
    | UnhandledGoal                    // a goal the switch has no case for

  /** The expression held by the fragment i places from the back of the popped list,
      that is the (i+1)-th fragment of the frame in source order. */
  function ExprFromBack(p: seq<Fragment>, i: nat): (r: Result<Expr, ReduceError>)
    ensures r.Ok? <==> i < |p| && p[|p| - 1 - i].ExpressionFrag?
    ensures r.Ok? ==> r.value == p[|p| - 1 - i].expression
  {
    if i < |p| && p[|p| - 1 - i].ExpressionFrag? then Ok(p[|p| - 1 - i].expression)
    else Err(MalformedFragments)
  }

  /** The statement held by the fragment i places from the back of the popped list. */
  function StmtFromBack(p: seq<Fragment>, i: nat): (r: Result<Statement, ReduceError>)
    ensures r.Ok? <==> i < |p| && p[|p| - 1 - i].StatementFrag?
    ensures r.Ok? ==> r.value == p[|p| - 1 - i].statement
  {
    if i < |p| && p[|p| - 1 - i].StatementFrag? then Ok(p[|p| - 1 - i].statement)
    else Err(MalformedFragments)
  }

  /** The expressions among fragments, in the order given. */
  function ExpressionsOf(s: seq<Fragment>): (r: seq<Expr>)
    ensures |r| <= |s|
  {
    if s == [] then []
    else (if s[0].ExpressionFrag? then [s[0].expression] else []) + ExpressionsOf(s[1..])
  }

  /** The statements among fragments, in the order given. */
  function StatementsOf(s: seq<Fragment>): (r: seq<Statement>)
    ensures |r| <= |s|
  {
    if s == [] then []
    else (if s[0].StatementFrag? then [s[0].statement] else []) + StatementsOf(s[1..])
  }

  /** The names of the identifier tokens among fragments, in the order given. */
  function IdentsOf(s: seq<Fragment>): (r: seq<string>)
    ensures |r| <= |s|
  {
    if s == [] then []
    else (if IsIdentFragment(s[0]) then [s[0].token.strVal.value] else []) + IdentsOf(s[1..])
  }

  /** The functions held by fragments, in the order given; every fragment must hold one. */
  function FunctionsOf(s: seq<Fragment>): (r: Result<seq<Function>, ReduceError>)
    ensures r.Ok? <==> forall i :: 0 <= i < |s| ==> s[i].FunctionFrag?
    ensures r.Ok? ==> |r.value| == |s| && forall i :: 0 <= i < |s| ==> r.value[i] == s[i].func
  {
    if s == [] then Ok([])
    else if !s[0].FunctionFrag? then Err(MalformedFragments)
    else
      match FunctionsOf(s[1..])
      case Ok(fs) => Ok([s[0].func] + fs)
      case Err(e) => Err(e)
  }

  function LiftExpr(r: Result<Expr, ExprError>): (l: Result<Expr, ReduceError>)
    ensures l.Ok? <==> r.Ok?
    ensures l.Ok? ==> l.value == r.value
  {
    match r
    case Ok(e) => Ok(e)
    case Err(e) => Err(BadExpression(e))
  }

  function LiftStmt(r: Result<Statement, StatementError>): (l: Result<Statement, ReduceError>)
    ensures l.Ok? <==> r.Ok?
    ensures l.Ok? ==> l.value == r.value
  {
    match r
    case Ok(s) => Ok(s)
    case Err(e) => Err(BadStatement(e))
  }

  /** reduce_expression. Positions count from the back of the popped list, that is from
      the left of the source: a literal or identifier is the first fragment; parentheses
      and prefix operators hold their operand second; binary operators and indexing take
      the first and third; a ternary the first, third and fifth; a postfix operator its
      first; a call takes the callee first and then every expression after the opening
      parenthesis, left to right. */
  function ReduceExpression(rule: ExprKind, p: seq<Fragment>): (r: Result<Expr, ReduceError>)
    ensures r.Ok? ==> r.value.kind == (if rule == StrLiteral then Identifier else rule)
    ensures rule == NoExpr ==> r == Err(UnhandledGoal)
  {
    if rule.IntLiteral? then
      if |p| > 0 && p[|p| - 1].TokenFrag? && p[|p| - 1].token.intVal.Some? then
        LiftExpr(MakeIntExpr(rule, p[|p| - 1].token.intVal.value))
      else Err(MalformedFragments)
    else if rule.StrLiteral? || rule.Identifier? then
      if |p| > 0 && p[|p| - 1].TokenFrag? && p[|p| - 1].token.strVal.Some? then
        LiftExpr(MakeStrExpr(rule, p[|p| - 1].token.strVal.value))
      else Err(MalformedFragments)
    else if rule.UnaryPostIncr? || rule.UnaryPostDecr? then
      var e :- ExprFromBack(p, 0);
      LiftExpr(MakeUnaryExpr(rule, e))
    else if rule.Parenthesis? || IsUnaryKind(rule) then
      var e :- ExprFromBack(p, 1);
      LiftExpr(MakeUnaryExpr(rule, e))
    else if rule.FuncCall? then
      var callee :- ExprFromBack(p, 0);
      if |p| < 2 then Err(MalformedFragments)
      else LiftExpr(MakeCallExpr(rule, callee, ExpressionsOf(Reverse(p)[2..])))
    else if rule.Ternary? then
      var cond :- ExprFromBack(p, 0);
      var t :- ExprFromBack(p, 2);
      var f :- ExprFromBack(p, 4);
      Ok(TernaryExpr(cond, t, f))
    else if rule.NoExpr? then Err(UnhandledGoal)
    else
      var lhs :- ExprFromBack(p, 0);
      var rhs :- ExprFromBack(p, 2);
      LiftExpr(MakeBinaryExpr(rule, lhs, rhs))
  }

  /** The variables of a definition: walking left to right, an identifier followed two
      places later by an expression is initialised by it and the walk resumes after the
      expression; any other identifier is uninitialised and the walk resumes two places
      later. */
  function VarsOf(s: seq<Fragment>): (r: seq<Variable>)
    decreases |s|
  {
    if s == [] then []
    else if !IsIdentFragment(s[0]) then VarsOf(s[1..])
    else if |s| > 2 && s[2].ExpressionFrag? then
      [InitVariable(s[0].token.strVal.value, s[2].expression)] + VarsOf(s[3..])
    else
      [UninitVariable(s[0].token.strVal.value)] + (if |s| > 2 then VarsOf(s[2..]) else [])
  }

  /** reduce_statement. A compound statement holds every statement of the frame, left to
      right; if and while take the condition third and the body fifth; return takes its
      expression second and an expression statement first; a definition reads its
      variables after the keyword. */
  function ReduceStatement(rule: StatementKind, p: seq<Fragment>): (r: Result<Statement, ReduceError>)
    ensures r.Ok? ==> r.value.kind == rule && Shaped(r.value)
  {
    match rule
    case Compound => Ok(CompoundStmt(StatementsOf(Reverse(p))))
    case Conditional | Loop =>
      var cond :- ExprFromBack(p, 2);
      var body :- StmtFromBack(p, 4);
      LiftStmt(MakeBranch(rule, cond, body))
    case ReturnStmt =>
      var e :- ExprFromBack(p, 1);
      LiftStmt(MakeExprStmt(rule, e))
    case ExpressionStmt =>
      var e :- ExprFromBack(p, 0);
      LiftStmt(MakeExprStmt(rule, e))
    case VarDef =>
      if |p| == 0 then Err(MalformedFragments)
      else Ok(VarDefStmt(VarsOf(Reverse(p)[1..])))
    case Nop => Ok(NopStmt())
  }

  /** reduce_function: the first identifier names the function, the others are its
      parameters in order, and the body is the most recent fragment. */
  function ReduceFunction(p: seq<Fragment>): (r: Result<Function, ReduceError>)
    ensures r.Ok? <==> |p| > 0 && |IdentsOf(Reverse(p))| > 0 && p[0].StatementFrag?
    ensures r.Ok? ==>
      [r.value.name] + r.value.params == IdentsOf(Reverse(p)) && r.value.body == p[0].statement
  {
    var names := IdentsOf(Reverse(p));
    if |names| == 0 then Err(MissingName)
    else if !p[0].StatementFrag? then Err(MalformedFragments)
    else Ok(MakeFunctionWithParams(names[0], names[1..], p[0].statement))
  }

  /** reduce_library as written: pop_front removes the most recent fragment, which is the
      last function of the program, before the rest are collected left to right. */
  function ReduceLibraryAsWritten(p: seq<Fragment>): (r: Result<Library, ReduceError>)
    requires |p| > 0
    ensures r.Ok? <==> forall i :: 1 <= i < |p| ==> p[i].FunctionFrag?
    ensures r.Ok? ==> (|r.value.functions| == |p| - 1 &&
      forall i :: 0 <= i < |p| - 1 ==> r.value.functions[i] == p[|p| - 1 - i].func)
  {
    var rest := Reverse(p[1..]);
    assert forall j :: 1 <= j < |p| ==> p[j] == rest[|p| - 1 - j];
    var fs :- FunctionsOf(rest);
    assert forall i :: 0 <= i < |p| - 1 ==> fs[i] == rest[i].func == p[|p| - 1 - i].func;
    Ok(Library(fs))
  }

  /** reduce_library as intended: every function of the frame, in declaration order. */
  function ReduceLibrary(p: seq<Fragment>): (r: Result<Library, ReduceError>)
    ensures r.Ok? <==> forall i :: 0 <= i < |p| ==> p[i].FunctionFrag?
    ensures r.Ok? ==> (|r.value.functions| == |p| &&
      forall i :: 0 <= i < |p| ==> r.value.functions[i] == p[|p| - 1 - i].func)
  {
    var all := Reverse(p);
    assert forall j :: 0 <= j < |p| ==> p[j] == all[|p| - 1 - j];
    var fs :- FunctionsOf(all);
    assert forall i :: 0 <= i < |p| ==> fs[i] == all[i].func == p[|p| - 1 - i].func;
    Ok(Library(fs))
  }

  /** reduce: dispatch on the goal and wrap the result in a fragment. The library is
      reduced as written (an empty frame, where pop_front is undefined, is malformed) or
      as intended. */
  function Reduce(v: Variant, goal: Goal, p: seq<Fragment>): (r: Result<Fragment, ReduceError>)
    ensures r.Ok? ==> !r.value.illFormed
    ensures r.Ok? && goal.StatementGoal? ==> r.value.StatementFrag? && r.value.statement.kind == goal.stmt
    ensures r.Ok? && goal.ExpressionGoal? ==> r.value.ExpressionFrag?
    ensures r.Ok? && goal.FunctionGoal? ==> r.value.FunctionFrag?
    ensures r.Ok? && goal.LibraryGoal? ==> r.value.LibraryFrag?
    ensures goal.NoGoal? ==> r == Err(UnhandledGoal)
  {
    match goal
    case StatementGoal(k) =>
      var s :- ReduceStatement(k, p);
      Ok(StatementFrag(s, false))
    case ExpressionGoal(k) =>
      var e :- ReduceExpression(k, p);
      Ok(ExpressionFrag(e, false))
    case FunctionGoal =>
      var f :- ReduceFunction(p);
      Ok(FunctionFrag(f, false))
    case LibraryGoal =>
      var l :- if v == Corrected then ReduceLibrary(p)
        else if p == [] then Err(MalformedFragments)
        else ReduceLibraryAsWritten(p);
      Ok(LibraryFrag(l, false))
    case NoGoal => Err(UnhandledGoal)
  }

  lemma {:induction false} ExpressionsOfAppend(a: seq<Fragment>, b: seq<Fragment>)
    ensures ExpressionsOf(a + b) == ExpressionsOf(a) + ExpressionsOf(b)
    decreases |a|
  {
    if a != [] {
      assert (a + b)[0] == a[0];
      assert (a + b)[1..] == a[1..] + b;
      ExpressionsOfAppend(a[1..], b);
    } else {
      assert a + b == b;
    }
  }

  lemma {:induction false} StatementsOfAppend(a: seq<Fragment>, b: seq<Fragment>)
    ensures StatementsOf(a + b) == StatementsOf(a) + StatementsOf(b)
    decreases |a|
  {
    if a != [] {
      assert (a + b)[0] == a[0];
      assert (a + b)[1..] == a[1..] + b;
      StatementsOfAppend(a[1..], b);
    } else {
      assert a + b == b;
    }
  }

  lemma {:induction false} IdentsOfAppend(a: seq<Fragment>, b: seq<Fragment>)
    ensures IdentsOf(a + b) == IdentsOf(a) + IdentsOf(b)
    decreases |a|
  {
    if a != [] {
      assert (a + b)[0] == a[0];
      assert (a + b)[1..] == a[1..] + b;
      IdentsOfAppend(a[1..], b);
    } else {
      assert a + b == b;
    }
  }

  /** The fragment of a shifted identifier token. */
  function IdentFrag(name: string, line: nat): (f: Fragment)
    ensures IsIdentFragment(f) && f.token.strVal == Some(name)
  {
    TokenFrag(Token(Ident, Some(name), None, line), false)
  }

  /** A comma-separated list of expressions, as a call's argument list appears in the
      frame. */
  function ArgFragments(args: seq<Expr>, comma: Fragment): seq<Fragment>
  {
    if args == [] then []
    else if |args| == 1 then [ExpressionFrag(args[0], false)]
    else [ExpressionFrag(args[0], false), comma] + ArgFragments(args[1..], comma)
  }

  lemma {:induction false} ExpressionsOfArgs(args: seq<Expr>, comma: Fragment)
    requires IsPunct(comma, Comma)
    ensures ExpressionsOf(ArgFragments(args, comma)) == args
  {
    if |args| == 1 {
      assert ExpressionsOf([ExpressionFrag(args[0], false)][1..]) == [];
    } else if |args| > 1 {
      var rest := ArgFragments(args[1..], comma);
      assert ArgFragments(args, comma) == [ExpressionFrag(args[0], false)] + ([comma] + rest);
      ExpressionsOfAppend([ExpressionFrag(args[0], false)], [comma] + rest);
      ExpressionsOfAppend([comma], rest);
      assert ExpressionsOf([ExpressionFrag(args[0], false)]) == [args[0]] by {
        assert [ExpressionFrag(args[0], false)][1..] == [];
      }
      assert ExpressionsOf([comma]) == [] by {
        assert [comma][1..] == [];
      }
      ExpressionsOfArgs(args[1..], comma);
    }
  }

  /** Popped, a call's frame has the callee at the back and exactly its arguments after
      the opening parenthesis. */
  lemma {:induction false} CallFrameParts(callee: Expr, args: seq<Expr>, open: Fragment, comma: Fragment, close: Fragment)
    requires IsPunct(open, ParenOpen) && IsPunct(comma, Comma) && IsPunct(close, ParenClose)
    ensures var p := Reverse([ExpressionFrag(callee, false), open] + ArgFragments(args, comma) + [close]);
      |p| >= 2 && ExprFromBack(p, 0) == Ok(callee) && ExpressionsOf(Reverse(p)[2..]) == args
  {
    var s := [ExpressionFrag(callee, false), open] + ArgFragments(args, comma) + [close];
    var p := Reverse(s);
    assert Reverse(p) == s by {
      ReverseReverse(s);
    }
    assert p[|p| - 1] == s[0];
    assert ExpressionsOf(s[2..]) == args by {
      assert s[2..] == ArgFragments(args, comma) + [close];
      ExpressionsOfAppend(ArgFragments(args, comma), [close]);
      assert ExpressionsOf([close]) == [] by {
        assert [close][1..] == [];
      }
      ExpressionsOfArgs(args, comma);
    }
  }

  /** A call takes the callee from the back of the popped list and its arguments from
      the expressions after the opening parenthesis. */
  lemma {:induction false} CallReduces(p: seq<Fragment>, callee: Expr, args: seq<Expr>)
    requires |p| >= 2 && ExprFromBack(p, 0) == Ok(callee) && ExpressionsOf(Reverse(p)[2..]) == args
    ensures ReduceExpression(FuncCall, p) == Ok(CallExpr(callee, args))
  {
  }

  /** A call reduces to the callee and the arguments in source order, whatever the
      number of arguments. */
  lemma {:induction false} CallRoundTrip(callee: Expr, args: seq<Expr>, open: Fragment, comma: Fragment, close: Fragment)
    requires IsPunct(open, ParenOpen) && IsPunct(comma, Comma) && IsPunct(close, ParenClose)
    ensures ReduceExpression(FuncCall,
      Reverse([ExpressionFrag(callee, false), open] + ArgFragments(args, comma) + [close]))
      == Ok(CallExpr(callee, args))
  {
    CallFrameParts(callee, args, open, comma, close);
    CallReduces(Reverse([ExpressionFrag(callee, false), open] + ArgFragments(args, comma) + [close]), callee, args);
  }

  /** A binary operator or an index reads the first and third fragments of its frame. */
  lemma {:induction false} BinaryRoundTrip(k: ExprKind, s: seq<Fragment>, a: Expr, b: Expr)
    requires IsBinaryKind(k) || k == Indexing
    requires |s| >= 3 && s[0] == ExpressionFrag(a, false) && s[2] == ExpressionFrag(b, false)
    ensures ReduceExpression(k, Reverse(s)) == LiftExpr(MakeBinaryExpr(k, a, b))
  {
    var p := Reverse(s);
    assert p[|p| - 1] == s[0] && p[|p| - 3] == s[2];
  }

  /** A ternary reads the first, third and fifth fragments of its frame. */
  lemma {:induction false} TernaryRoundTrip(s: seq<Fragment>, a: Expr, b: Expr, c: Expr)
    requires |s| >= 5 && s[0] == ExpressionFrag(a, false) && s[2] == ExpressionFrag(b, false)
    requires s[4] == ExpressionFrag(c, false)
    ensures ReduceExpression(Ternary, Reverse(s)) == Ok(TernaryExpr(a, b, c))
  {
    var p := Reverse(s);
    assert p[|p| - 1] == s[0] && p[|p| - 3] == s[2] && p[|p| - 5] == s[4];
  }

  /** Parentheses and prefix operators read the second fragment of their frame. */
  lemma {:induction false} PrefixRoundTrip(k: ExprKind, s: seq<Fragment>, a: Expr)
    requires k == Parenthesis || (IsUnaryKind(k) && k != UnaryPostIncr && k != UnaryPostDecr)
    requires |s| >= 2 && s[1] == ExpressionFrag(a, false)
    ensures ReduceExpression(k, Reverse(s)) == LiftExpr(MakeUnaryExpr(k, a))
  {
    var p := Reverse(s);
    assert p[|p| - 2] == s[1];
    assert ExprFromBack(p, 1) == Ok(a);
  }

  /** Postfix operators read the first fragment of their frame. */
  lemma {:induction false} PostfixRoundTrip(k: ExprKind, s: seq<Fragment>, a: Expr)
    requires k == UnaryPostIncr || k == UnaryPostDecr
    requires |s| >= 1 && s[0] == ExpressionFrag(a, false)
    ensures ReduceExpression(k, Reverse(s)) == LiftExpr(MakeUnaryExpr(k, a))
  {
    var p := Reverse(s);
    assert p[|p| - 1] == s[0];
    assert ExprFromBack(p, 0) == Ok(a);
  }

  /** if and while read the condition third and the body fifth; return its expression
      second; an expression statement its expression first. */
  lemma {:induction false} StatementRoundTrips(k: StatementKind, s: seq<Fragment>, cond: Expr, body: Statement)
    requires |s| >= 5
    ensures (k == Conditional || k == Loop) && s[2] == ExpressionFrag(cond, false) && s[4] == StatementFrag(body, false) ==>
      ReduceStatement(k, Reverse(s)) == LiftStmt(MakeBranch(k, cond, body))
    ensures (k == ReturnStmt && s[1] == ExpressionFrag(cond, false)) || (k == ExpressionStmt && s[0] == ExpressionFrag(cond, false)) ==>
      ReduceStatement(k, Reverse(s)) == LiftStmt(MakeExprStmt(k, cond))
  {
    var p := Reverse(s);
    assert p[|p| - 1] == s[0] && p[|p| - 2] == s[1] && p[|p| - 3] == s[2] && p[|p| - 5] == s[4];
  }

  function StatementFrags(ss: seq<Statement>): (r: seq<Fragment>)
    ensures |r| == |ss| && forall i :: 0 <= i < |ss| ==> r[i] == StatementFrag(ss[i], false)
  {
    if ss == [] then [] else [StatementFrag(ss[0], false)] + StatementFrags(ss[1..])
  }

  lemma {:induction false} StatementsOfFrags(ss: seq<Statement>)
    ensures StatementsOf(StatementFrags(ss)) == ss
  {
    if ss != [] {
      StatementsOfAppend([StatementFrag(ss[0], false)], StatementFrags(ss[1..]));
      assert StatementsOf([StatementFrag(ss[0], false)]) == [ss[0]] by {
        assert [StatementFrag(ss[0], false)][1..] == [];
      }
      StatementsOfFrags(ss[1..]);
    }
  }

  /** A block reduces to the compound statement of its statements, in order. */
  lemma {:induction false} CompoundRoundTrip(ss: seq<Statement>, open: Fragment, close: Fragment)
    requires IsPunct(open, CurlyOpen) && IsPunct(close, CurlyClose)
    ensures ReduceStatement(Compound, Reverse([open] + StatementFrags(ss) + [close]))
      == Ok(CompoundStmt(ss))
  {
    var mid := StatementFrags(ss);
    var s := [open] + mid + [close];
    var p := Reverse(s);
    assert StatementsOf(s) == ss by {
      StatementsOfAppend([open] + mid, [close]);
      StatementsOfAppend([open], mid);
      assert StatementsOf([open]) == [] by {
        assert [open][1..] == [];
      }
      assert StatementsOf([close]) == [] by {
        assert [close][1..] == [];
      }
      StatementsOfFrags(ss);
    }
    ReverseReverse(s);
    assert ReduceStatement(Compound, p) == Ok(CompoundStmt(StatementsOf(Reverse(p))));
  }

  /** A variable as the source builds one: initialised exactly when it has an
      initialiser. */
  predicate VariableAgrees(v: Variable) {
    v.isInitialized <==> v.init.Some?
  }

  /** One variable's fragments: its name, then `=` and the initialiser when it has one,
      then the separator. */
  function DeclFragment(v: Variable, line: nat, eq: Fragment, sep: Fragment): seq<Fragment>
  {
    if v.init.Some? then [IdentFrag(v.name, line), eq, ExpressionFrag(v.init.value, false), sep]
    else [IdentFrag(v.name, line), sep]
  }

  /** The fragments of a definition's variable list: each variable followed by a comma,
      or by the semicolon after the last. */
  function DeclFragments(vs: seq<Variable>, line: nat, eq: Fragment, comma: Fragment, semi: Fragment): seq<Fragment>
  {
    if vs == [] then []
    else
      var sep := if |vs| == 1 then semi else comma;
      DeclFragment(vs[0], line, eq, sep) + DeclFragments(vs[1..], line, eq, comma, semi)
  }

  lemma {:induction false} VarsOfDecls(vs: seq<Variable>, line: nat, eq: Fragment, comma: Fragment, semi: Fragment)
    requires forall i :: 0 <= i < |vs| ==> VariableAgrees(vs[i])
    requires IsPunct(eq, Equals) && IsPunct(comma, Comma) && IsPunct(semi, Semicolon)
    ensures VarsOf(DeclFragments(vs, line, eq, comma, semi)) == vs
  {
    if vs != [] {
      var v := vs[0];
      var sep := if |vs| == 1 then semi else comma;
      var rest := DeclFragments(vs[1..], line, eq, comma, semi);
      var s := DeclFragment(v, line, eq, sep) + rest;
      assert DeclFragments(vs, line, eq, comma, semi) == s;
      VarsOfDecls(vs[1..], line, eq, comma, semi);
      assert VariableAgrees(v);
      if v.init.Some? {
        assert s[3..] == [sep] + rest;
        assert ([sep] + rest)[1..] == rest;
        assert VarsOf(s) == [InitVariable(v.name, v.init.value)] + VarsOf(s[3..]);
        assert v == InitVariable(v.name, v.init.value);
      } else {
        assert v == UninitVariable(v.name);
        if |s| > 2 {
          assert s[2..] == rest;
        } else {
          assert rest == [];
        }
      }
    }
  }

  /** A variable definition reduces to its variables, each initialised exactly when its
      name is followed by `=` and an initialiser. */
  lemma {:induction false} VarDefRoundTrip(vs: seq<Variable>, line: nat, kw: Fragment, eq: Fragment, comma: Fragment, semi: Fragment)
    requires forall i :: 0 <= i < |vs| ==> VariableAgrees(vs[i])
    requires IsPunct(eq, Equals) && IsPunct(comma, Comma) && IsPunct(semi, Semicolon)
    ensures ReduceStatement(VarDef, Reverse([kw] + DeclFragments(vs, line, eq, comma, semi)))
      == Ok(VarDefStmt(vs))
  {
    var s := [kw] + DeclFragments(vs, line, eq, comma, semi);
    ReverseReverse(s);
    assert s[1..] == DeclFragments(vs, line, eq, comma, semi);
    VarsOfDecls(vs, line, eq, comma, semi);
  }

  /** A comma-separated list of parameter names. */
  function ParamFragments(params: seq<string>, line: nat, comma: Fragment): seq<Fragment>
  {
    if params == [] then []
    else if |params| == 1 then [IdentFrag(params[0], line)]
    else [IdentFrag(params[0], line), comma] + ParamFragments(params[1..], line, comma)
  }

  lemma {:induction false} IdentsOfParams(params: seq<string>, line: nat, comma: Fragment)
    requires IsPunct(comma, Comma)
    ensures IdentsOf(ParamFragments(params, line, comma)) == params
  {
    if |params| == 1 {
      assert IdentsOf([IdentFrag(params[0], line)][1..]) == [];
    } else if |params| > 1 {
      var rest := ParamFragments(params[1..], line, comma);
      assert ParamFragments(params, line, comma) == [IdentFrag(params[0], line)] + ([comma] + rest);
      IdentsOfAppend([IdentFrag(params[0], line)], [comma] + rest);
      IdentsOfAppend([comma], rest);
      assert IdentsOf([IdentFrag(params[0], line)]) == [params[0]] by {
        assert [IdentFrag(params[0], line)][1..] == [];
      }
      assert IdentsOf([comma]) == [] by {
        assert [comma][1..] == [];
      }
      IdentsOfParams(params[1..], line, comma);
    }
  }

  /** A function reduces to its name, its parameters in order and its body. */
  lemma {:induction false} FunctionRoundTrip(name: string, params: seq<string>, body: Statement, line: nat, comma: Fragment, colon: Fragment)
    requires IsPunct(comma, Comma) && IsPunct(colon, Colon)
    ensures ReduceFunction(Reverse([IdentFrag(name, line)] + ParamFragments(params, line, comma) + [colon, StatementFrag(body, false)]))
      == Ok(Function(name, params, body))
  {
    var mid := ParamFragments(params, line, comma);
    var tail := [colon, StatementFrag(body, false)];
    var s := [IdentFrag(name, line)] + mid + tail;
    var p := Reverse(s);
    assert IdentsOf(s) == [name] + params by {
      IdentsOfAppend([IdentFrag(name, line)] + mid, tail);
      IdentsOfAppend([IdentFrag(name, line)], mid);
      assert IdentsOf([IdentFrag(name, line)]) == [name] by {
        assert [IdentFrag(name, line)][1..] == [];
      }
      assert IdentsOf(tail) == [] by {
        assert tail[1..] == [StatementFrag(body, false)];
        assert [StatementFrag(body, false)][1..] == [];
      }
      IdentsOfParams(params, line, comma);
    }
    ReverseReverse(s);
    assert p[0] == StatementFrag(body, false);
  }

  function FunctionFrags(fs: seq<Function>): (r: seq<Fragment>)
    ensures |r| == |fs| && forall i :: 0 <= i < |fs| ==> r[i] == FunctionFrag(fs[i], false)
  {
    if fs == [] then [] else [FunctionFrag(fs[0], false)] + FunctionFrags(fs[1..])
  }

  /** A popped list holding the fragments of the functions, the last one first, reduces
      to the library of those functions. */
  lemma {:induction false} LibraryReduces(p: seq<Fragment>, fs: seq<Function>)
    requires |p| == |fs| && forall i :: 0 <= i < |p| ==> p[i] == FunctionFrag(fs[|fs| - 1 - i], false)
    ensures ReduceLibrary(p) == Ok(Library(fs))
  {
    var r := ReduceLibrary(p);
    assert r.Ok?;
    forall i | 0 <= i < |fs|
      ensures r.value.functions[i] == fs[i]
    {
      var j := |p| - 1 - i;
      assert r.value.functions[i] == p[j].func;
      assert p[j] == FunctionFrag(fs[|fs| - 1 - j], false);
    }
    assert r.value.functions == fs;
  }

  /** The library holds every function of the program, in declaration order. */
  lemma {:induction false} LibraryRoundTrip(fs: seq<Function>)
    ensures ReduceLibrary(Reverse(FunctionFrags(fs))) == Ok(Library(fs))
  {
    var p := Reverse(FunctionFrags(fs));
    assert forall i :: 0 <= i < |p| ==> p[i] == FunctionFrag(fs[|fs| - 1 - i], false);
    LibraryReduces(p, fs);
  }

  /** As written, the library loses the last function of the program. */
  lemma {:induction false} LibraryAsWrittenDropsLast(fs: seq<Function>)
    requires |fs| > 0
    ensures ReduceLibraryAsWritten(Reverse(FunctionFrags(fs))) == Ok(Library(fs[..|fs| - 1]))
  {
    var p := Reverse(FunctionFrags(fs));
    assert forall i :: 0 <= i < |p| ==> p[i] == FunctionFrag(fs[|fs| - 1 - i], false);
    var r := ReduceLibraryAsWritten(p);
    assert r.Ok?;
    forall i | 0 <= i < |fs| - 1
      ensures r.value.functions[i] == fs[i]
    {
      var j := |p| - 1 - i;
      assert r.value.functions[i] == p[j].func;
      assert p[j] == FunctionFrag(fs[|fs| - 1 - j], false);
    }
    assert r.value.functions == fs[..|fs| - 1];
  }

  /** The input that shows it: a program of the functions f and g yields a library with
      f alone. */
  lemma {:induction false} LibraryAsWrittenExample(f: Function, g: Function)
    ensures ReduceLibraryAsWritten([FunctionFrag(g, false), FunctionFrag(f, false)]) == Ok(Library([f]))
    ensures ReduceLibrary([FunctionFrag(g, false), FunctionFrag(f, false)]) == Ok(Library([f, g]))
  {
    var p := [FunctionFrag(g, false), FunctionFrag(f, false)];
    var r := ReduceLibraryAsWritten(p);
    assert r.Ok? && |r.value.functions| == 1 && r.value.functions[0] == f;
    assert r.value.functions == [f];
    var q := ReduceLibrary(p);
    assert q.Ok? && |q.value.functions| == 2 && q.value.functions[0] == f && q.value.functions[1] == g;
    assert q.value.functions == [f, g];
  }
}
