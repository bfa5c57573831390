/** How feed parses the second argument of a call, `f(a, b, c)`, in either reading of the
    table: from state 49, just after the comma that ends the first argument, the parser is
    fed the identifier b and then the next comma. As written, the argument is parsed by
    the sub-grammar at 11, which continues an expression on a comma, so the comma is
    shifted as a comma operator inside the argument (b, c). Corrected, the argument is
    parsed by the comma-free sub-grammar at 97, returns to 48 and the comma is shifted as
    the separator before a third argument. */
module CallArguments {
  import opened Wrappers
  import opened Tokens
  import opened Expressions
  import opened Fragments
  import opened Grammar
  import opened Variants
  import opened Parsing
  import Reducer

  /** The identifier expression an identifier token reduces to. */
  function IdentExpr(b: Token): (e: Expr)
    requires b.strVal.Some?
    ensures Ok(e) == MakeStrExpr(Identifier, b.strVal.value)
  {
    Expr(Identifier, OpCountOf(Identifier), StrVal(b.strVal.value))
  }

  /** The state after the first feed: a frame for the argument (returning to 48) holding
      the identifier token, in the given state. */
  function ArgumentOpened(c: Config, b: Token, state: int): (d: Config)
    requires Framed(c)
    ensures Framed(d) && d.state == state
    ensures d.fragments == c.fragments + [TokenFrag(b, false)] && d.returnStates == c.returnStates + [48]
  {
    PushToken(CallFrame(c, state, 48, 0), b).(state := state)
  }

  /** An identifier token alone in its frame reduces to the identifier expression, which
      rpn_expr leaves as it is. */
  lemma {:induction false} IdentifierReduces(d: Config, v: Variant, b: Token)
    requires Framed(d) && d.fragments != [] && d.fragments[|d.fragments| - 1] == TokenFrag(b, false)
    requires d.counts[|d.counts| - 1] == 1 && b.strVal.Some?
    ensures TopCount(d) == 1 && Pending(d) == [TokenFrag(b, false)]
    ensures ReduceTaken(v, ExpressionGoal(Identifier), Pending(d)) == Ok(ExpressionFrag(IdentExpr(b), false))
  {
    var n := |d.fragments|;
    assert d.fragments[n - 1..] == [TokenFrag(b, false)];
    assert Reverse([TokenFrag(b, false)]) == [TokenFrag(b, false)];
    var p := [TokenFrag(b, false)];
    assert Reducer.ReduceExpression(Identifier, p) == Ok(IdentExpr(b));
    assert Reducer.Reduce(v, ExpressionGoal(Identifier), p) == Ok(ExpressionFrag(IdentExpr(b), false));
  }

  /** The sub-grammar an argument is parsed by: 11 as written, 97 corrected. */
  function ArgumentGrammar(v: Variant): (sub: int)
    ensures sub == 11 <==> v == AsWritten
  {
    if v == AsWritten then 11 else 97
  }

  /** As written, at 49 an identifier opens a frame for the sub-grammar at 11 (returning
      to 48), which shifts it to 38. */
  lemma {:induction false} ArgumentEntriesAsWritten()
    ensures ChooseAction(AsWritten, 49, Ident) == Ok(StateAction(CallNonterm, 11, 48))
    ensures ChooseAction(AsWritten, 11, Ident) == Ok(StateAction(Shift, 38, -1))
  {
    SecondArgumentTakesCommaAsWritten();
    assert Table(AsWritten, 11, Ident) == Some(StateAction(Shift, 38, -1));
  }

  /** Corrected, at 49 an identifier opens a frame for the sub-grammar at 97 (returning to
      48), which shifts it to 102. */
  lemma {:induction false} ArgumentEntriesCorrected()
    ensures ChooseAction(Corrected, 49, Ident) == Ok(StateAction(CallNonterm, 97, 48))
    ensures ChooseAction(Corrected, 97, Ident) == Ok(StateAction(Shift, 102, -1))
  {
    ArgumentsAreCommaFree(49);
    assert Table(Corrected, 97, Ident) == Some(StateAction(Shift, 102, -1));
  }

  /** The first step at 49: the argument's frame is opened. */
  lemma {:induction false} ArgumentFrameOpens(c: Config, v: Variant, b: Token, fuel: nat)
    requires Framed(c) && c.state == 49 && b.kind == Ident && fuel >= 1
    ensures Run(c, v, b, fuel) == Run(CallFrame(c, ArgumentGrammar(v), 48, 0), v, b, fuel - 1)
  {
    var a := StateAction(CallNonterm, ArgumentGrammar(v), 48);
    if v == AsWritten {
      ArgumentEntriesAsWritten();
    } else {
      ArgumentEntriesCorrected();
    }
    CallOpensFrame(c, v, b, a);
    RunContinues(c, v, b, fuel, a, CallFrame(c, ArgumentGrammar(v), 48, 0));
  }

  /** A state whose entry for the token is a SHIFT ends the run there, with the token
      pushed and counted. */
  lemma {:induction false} RunShifts(c: Config, v: Variant, tok: Token, fuel: nat, next: int)
    requires Framed(c) && fuel >= 1 && ChooseAction(v, c.state, tok.kind) == Ok(StateAction(Shift, next, -1))
    ensures Run(c, v, tok, fuel) == (PushToken(c, tok).(state := next), Ok(Shifted))
  {
    var a := StateAction(Shift, next, -1);
    ShiftPushesToken(c, v, tok, a);
    RunStops(c, v, tok, fuel, a, PushToken(c, tok).(state := next), Shifted);
  }

  /** The argument's sub-grammar shifts the identifier: to 38 as written, to 102
      corrected. */
  lemma {:induction false} ArgumentShifts(c: Config, v: Variant, b: Token, fuel: nat)
    requires Framed(c) && c.state == ArgumentGrammar(v) && b.kind == Ident && fuel >= 1
    ensures Run(c, v, b, fuel) == (PushToken(c, b).(state := if v == AsWritten then 38 else 102), Ok(Shifted))
  {
    if v == AsWritten {
      ArgumentEntriesAsWritten();
      RunShifts(c, v, b, fuel, 38);
    } else {
      ArgumentEntriesCorrected();
      RunShifts(c, v, b, fuel, 102);
    }
  }

  /** The identifier fed at 49 opens a frame for the argument and is shifted: at 38 (the
      sub-grammar at 11) as written, at 102 (the sub-grammar at 97) corrected. */
  lemma {:induction false} IdentifierAt49(c: Config, v: Variant, b: Token, fuel: nat)
    requires Framed(c) && c.state == 49 && b.kind == Ident && fuel >= 2
    ensures Run(c, v, b, fuel) == (ArgumentOpened(c, b, if v == AsWritten then 38 else 102), Ok(Shifted))
  {
    ArgumentFrameOpens(c, v, b, fuel);
    ArgumentShifts(CallFrame(c, ArgumentGrammar(v), 48, 0), v, b, fuel - 1);
  }

  /** The entries that reduce an identifier token: at 38 (returning to 78) and at 102
      (returning to 99), whatever the lookahead. */
  lemma {:induction false} IdentifierEntries(k: TokenKind)
    ensures ChooseAction(AsWritten, 38, k) == Ok(GoalAction(Reduce, ExpressionGoal(Identifier), 78))
    ensures ChooseAction(Corrected, 102, k) == Ok(GoalAction(Reduce, ExpressionGoal(Identifier), 99))
  {
    assert Table(AsWritten, 38, Reserved) == Some(GoalAction(Reduce, ExpressionGoal(Identifier), 78));
    assert Table(Corrected, 102, Reserved) == Some(GoalAction(Reduce, ExpressionGoal(Identifier), 99));
  }

  /** Reducing the identifier token on top of its frame replaces it by the identifier
      expression, and the state becomes the return state. */
  lemma {:induction false} IdentifierReduction(d: Config, v: Variant, b: Token, tok: Token, ret: int)
    requires Framed(d) && d.fragments != [] && d.fragments[|d.fragments| - 1] == TokenFrag(b, false)
    requires d.counts[|d.counts| - 1] == 1 && b.strVal.Some? && ret >= 0
    ensures var n := |d.fragments|;
      var reduced := d.(fragments := d.fragments[..n - 1] + [ExpressionFrag(IdentExpr(b), false)], state := ret);
      Perform(d, v, tok, GoalAction(Reduce, ExpressionGoal(Identifier), ret)) == Ok(Continue(reduced))
  {
    var g := ExpressionFrag(IdentExpr(b), false);
    IdentifierReduces(d, v, b);
    ReduceFrameOk(d, v, ExpressionGoal(Identifier), ret, g);
  }

  /** The identifier token on top of its frame is reduced in place, and the state becomes
      the entry's return state. */
  lemma {:induction false} IdentifierStep(d: Config, v: Variant, b: Token, tok: Token, fuel: nat, ret: int)
    requires Framed(d) && d.fragments != [] && d.fragments[|d.fragments| - 1] == TokenFrag(b, false)
    requires d.counts[|d.counts| - 1] == 1 && b.strVal.Some? && fuel >= 1 && ret >= 0
    requires ChooseAction(v, d.state, tok.kind) == Ok(GoalAction(Reduce, ExpressionGoal(Identifier), ret))
    ensures var n := |d.fragments|;
      var reduced := d.(fragments := d.fragments[..n - 1] + [ExpressionFrag(IdentExpr(b), false)], state := ret);
      Run(d, v, tok, fuel) == Run(reduced, v, tok, fuel - 1)
  {
    var n := |d.fragments|;
    var reduced := d.(fragments := d.fragments[..n - 1] + [ExpressionFrag(IdentExpr(b), false)], state := ret);
    IdentifierReduction(d, v, b, tok, ret);
    RunContinues(d, v, tok, fuel, GoalAction(Reduce, ExpressionGoal(Identifier), ret), reduced);
  }

  /** As written, a comma at 78 re-enters the expression at 42, which shifts it as a
      comma operator (61). */
  lemma {:induction false} CommaOperator(r: Config, comma: Token, fuel: nat)
    requires Framed(r) && r.state == 78 && comma.kind == Comma && fuel >= 2
    ensures Run(r, AsWritten, comma, fuel) == (PushToken(CallFrame(r, 42, 78, 1), comma).(state := 61), Ok(Shifted))
  {
    var a1 := StateAction(CallNontermRec, 42, 78);
    var framed := CallFrame(r, 42, 78, 1);
    SecondArgumentTakesCommaAsWritten();
    assert Perform(r, AsWritten, comma, a1) == Ok(Continue(framed));
    RunContinues(r, AsWritten, comma, fuel, a1, framed);
    RunShifts(framed, AsWritten, comma, fuel - 1, 61);
  }

  /** Corrected, a comma at 99 returns from the argument's frame to 48, which shifts it
      as the separator (49). */
  lemma {:induction false} CommaSeparator(r: Config, comma: Token, fuel: nat)
    requires Framed(r) && r.state == 99 && r.returnStates != [] && r.returnStates[|r.returnStates| - 1] == 48
    requires comma.kind == Comma && fuel >= 2
    ensures PopFrame(r).Ok? && Run(r, Corrected, comma, fuel) == (PushToken(PopFrame(r).value, comma).(state := 49), Ok(Shifted))
  {
    var back := PopFrame(r).value;
    ArgumentsAreCommaFree(49);
    ReturnLeavesFrame(r, Corrected, comma, ReturnAction());
    RunContinues(r, Corrected, comma, fuel, ReturnAction(), back);
    assert back.state == 48;
    TablesDifferOnlyAt49(48, Comma);
    SecondArgumentTakesCommaAsWritten();
    RunShifts(back, Corrected, comma, fuel - 1, 49);
  }

  /** `f(a, b, c)` as written: after the first comma, feeding b and the next comma leaves
      the parser two frames deeper, at the right operand of a comma operator, with b
      reduced and the comma shifted inside the argument. */
  lemma {:induction false} SecondArgumentAsWritten(c: Config, b: Token, comma: Token, fuel: nat)
    requires Framed(c) && c.state == 49 && b.kind == Ident && b.strVal.Some? && comma.kind == Comma && fuel >= 3
    ensures Run(c, AsWritten, b, fuel).1 == Ok(Shifted)
    ensures var d := Run(Run(c, AsWritten, b, fuel).0, AsWritten, comma, fuel);
      d.1 == Ok(Shifted) && d.0.state == 61 && d.0.returnStates == c.returnStates + [48, 78] &&
      d.0.fragments == c.fragments + [ExpressionFrag(IdentExpr(b), false), TokenFrag(comma, false)]
  {
    var d := ArgumentOpened(c, b, 38);
    IdentifierAt49(c, AsWritten, b, fuel);
    assert d.counts[|d.counts| - 1] == 1;
    IdentifierEntries(Comma);
    IdentifierStep(d, AsWritten, b, comma, fuel, 78);
    var n := |d.fragments|;
    assert d.fragments[..n - 1] == c.fragments;
    CommaOperator(d.(fragments := c.fragments + [ExpressionFrag(IdentExpr(b), false)], state := 78), comma, fuel - 1);
  }

  /** `f(a, b, c)` corrected: after the first comma, feeding b and the next comma brings
      the parser back to 49, in the frame of the call, with b reduced and the comma
      shifted as the separator before the third argument. */
  lemma {:induction false} SecondArgumentCorrected(c: Config, b: Token, comma: Token, fuel: nat)
    requires Framed(c) && c.state == 49 && b.kind == Ident && b.strVal.Some? && comma.kind == Comma && fuel >= 3
    ensures Run(c, Corrected, b, fuel).1 == Ok(Shifted)
    ensures var d := Run(Run(c, Corrected, b, fuel).0, Corrected, comma, fuel);
      d.1 == Ok(Shifted) && d.0.state == 49 && d.0.returnStates == c.returnStates &&
      d.0.fragments == c.fragments + [ExpressionFrag(IdentExpr(b), false), TokenFrag(comma, false)]
  {
    var d := ArgumentOpened(c, b, 102);
    IdentifierAt49(c, Corrected, b, fuel);
    assert d.counts[|d.counts| - 1] == 1;
    IdentifierEntries(Comma);
    IdentifierStep(d, Corrected, b, comma, fuel, 99);
    var n := |d.fragments|;
    assert d.fragments[..n - 1] == c.fragments;
    assert d.returnStates[..|d.returnStates| - 1] == c.returnStates;
    CommaSeparator(d.(fragments := c.fragments + [ExpressionFrag(IdentExpr(b), false)], state := 99), comma, fuel - 1);
  }
}
