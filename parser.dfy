/** The push parser (parser.h, Parser): a current state and three stacks (the fragments
    built so far, the return states of the open frames, and for each frame the number of
    fragments it has pushed), driven one lookahead token at a time by the grammar table.
    Every stack is a sequence whose top is at the end. */
module Parsing {
  import opened Wrappers
  import opened Tokens
  import opened Expressions
  import opened Statements
  import opened Program
  import opened Fragments
  import opened Grammar
  import opened Variants
  import Reducer
  import Resolver

  /** Why a feed or a finish fails. The source throws on a missing table entry and
      dereferences missing stack entries and fragments; each of those is an error here. */
  datatype ParseError =
    | NoAction(lookup: LookupError)        // choose_action found no entry
    | ReductionFailed(reduce: Reducer.ReduceError)  // a reduction found fragments it cannot use
    | ResolutionFailed(resolve: Resolver.ResolveError)  // rpn_expr ran out of operands
    | StackUnderflow                       // a pop of an empty stack
    | OutOfFuel                            // feed did not shift within the step bound
    | NoLibrary                            // finish found no library on top

  /** The parser's state: fragments (parser_stack), returnStates (return_stack), counts
      (reduce_stack) and the current state. */
  datatype Config = Config(fragments: seq<Fragment>, returnStates: seq<int>, counts: seq<int>, state: int)

  /** Every frame has a count and all but the outermost a return state. */
  predicate Framed(c: Config) {
    |c.counts| == |c.returnStates| + 1
  }

  /** Parser(): return state -1, counts -1 and 0, state 0, no fragments. */
  function Initial(): (c: Config)
    ensures Framed(c)
  {
    Config([], [-1], [-1, 0], 0)
  }

  /** reduce_stack.top()++. */
  function BumpTop(counts: seq<int>): (r: seq<int>)
    requires counts != []
    ensures |r| == |counts| && r[..|r| - 1] == counts[..|counts| - 1]
    ensures r[|r| - 1] == counts[|counts| - 1] + 1
  {
    counts[..|counts| - 1] + [counts[|counts| - 1] + 1]
  }

  /** The token pushed as a fragment and counted in the current frame. */
  function PushToken(c: Config, tok: Token): (r: Config)
    requires Framed(c)
    ensures Framed(r)
  {
    c.(fragments := c.fragments + [TokenFrag(tok, false)], counts := BumpTop(c.counts))
  }

  /** CALL_NONTERM (initial count 0) and CALL_NONTERM_REC (1): a new frame. */
  function CallFrame(c: Config, next: int, ret: int, initial: int): (r: Config)
    requires Framed(c)
    ensures Framed(r)
  {
    Config(c.fragments, c.returnStates + [ret], c.counts + [initial], next)
  }

  /** Leaving a frame: the state becomes its return state, both stacks lose their top, and
      the frame's result is counted in the parent frame. */
  function PopFrame(c: Config): (r: Result<Config, ParseError>)
    requires Framed(c)
    ensures r.Ok? ==> Framed(r.value)
    ensures r.Err? <==> c.returnStates == []
    ensures r.Err? ==> r.error == StackUnderflow
  {
    if c.returnStates == [] then Err(StackUnderflow)
    else
      var n := |c.returnStates|;
      Ok(Config(c.fragments, c.returnStates[..n - 1], BumpTop(c.counts[..n]), c.returnStates[n - 1]))
  }

  /** The fragments a reduction takes: as many as the frame's count says (none when it is
      not positive), the most recent first. */
  function Taken(count: int): (k: nat)
    ensures count > 0 ==> k == count
    ensures count <= 0 ==> k == 0
  {
    if count > 0 then count else 0
  }

  /** After a reduction, rpn_expr is applied to the expression of a statement unless it is
      a grouping, and to a grouping expression. */
  function Normalise(v: Variant, goal: Goal, f: Fragment): (r: Result<Fragment, ParseError>)
    ensures r.Ok? ==> GetTag(r.value) == GetTag(f)
    ensures r.Ok? && goal.StatementGoal? && f.StatementFrag? ==>
      r.value.statement.kind == f.statement.kind && r.value.statement.body == f.statement.body &&
      r.value.statement.vars == f.statement.vars && r.value.statement.expr.Some? == f.statement.expr.Some?
    ensures (!(goal.StatementGoal? && f.StatementFrag? && f.statement.expr.Some? && f.statement.expr.value.gentype != Grouping) &&
             !(goal.ExpressionGoal? && OpCountOf(goal.expr) == Grouping && f.ExpressionFrag?)) ==> r == Ok(f)
    ensures goal.StatementGoal? && f.StatementFrag? && f.statement.expr.Some? && f.statement.expr.value.gentype != Grouping ==>
      var e := Resolver.Resolve(f.statement.expr.value, v);
      (r.Ok? <==> e.Ok?) && (r.Ok? ==> r.value == f.(statement := f.statement.(expr := Some(e.value)))) &&
      (r.Err? ==> r.error == ResolutionFailed(e.error))
    ensures goal.ExpressionGoal? && OpCountOf(goal.expr) == Grouping && f.ExpressionFrag? ==>
      var e := Resolver.Resolve(f.expression, v);
      (r.Ok? <==> e.Ok?) && (r.Ok? ==> r.value == f.(expression := e.value)) &&
      (r.Err? ==> r.error == ResolutionFailed(e.error))
  {
    if goal.StatementGoal? && f.StatementFrag? && f.statement.expr.Some? && f.statement.expr.value.gentype != Grouping then
      match Resolver.Resolve(f.statement.expr.value, v)
      case Ok(e) => Ok(f.(statement := f.statement.(expr := Some(e))))
      case Err(err) => Err(ResolutionFailed(err))
    else if goal.ExpressionGoal? && OpCountOf(goal.expr) == Grouping && f.ExpressionFrag? then
      match Resolver.Resolve(f.expression, v)
      case Ok(e) => Ok(f.(expression := e))
      case Err(err) => Err(ResolutionFailed(err))
    else Ok(f)
  }

  /** A REDUCE with a goal: the frame's fragments come off the stack, the reduction of
      the goal replaces them, rpn_expr is applied as above, and the state becomes the
      return state of the action; a negative one leaves the frame as well. */
  function ReduceFrame(c: Config, v: Variant, goal: Goal, ret: int): (r: Result<Config, ParseError>)
    requires Framed(c)
    ensures r.Ok? && ret >= 0 ==> r.value.state == ret
    ensures r.Ok? ==> Framed(r.value)
  {
    if |c.fragments| < TopCount(c) then Err(StackUnderflow)
    else Place(c, TopCount(c), ReduceTaken(v, goal, Pending(c)), ret)
  }

  /** How many fragments the current frame has pushed (a count that is not positive
      takes none). */
  function TopCount(c: Config): (k: nat)
    requires Framed(c)
  {
    Taken(c.counts[|c.counts| - 1])
  }

  /** The current frame's fragments as the reduction takes them: popped, the most recent first. */
  function Pending(c: Config): (p: seq<Fragment>)
    requires Framed(c) && TopCount(c) <= |c.fragments|
    ensures |p| == TopCount(c)
  {
    Reverse(c.fragments[|c.fragments| - TopCount(c)..])
  }

  /** The reduction's outcome installed: its error, or its fragment in place of the
      frame's k fragments. */
  function Place(c: Config, k: nat, reduced: Result<Fragment, ParseError>, ret: int): (r: Result<Config, ParseError>)
    requires Framed(c) && k <= |c.fragments|
    ensures r.Ok? && ret >= 0 ==> r.value.state == ret
    ensures r.Ok? ==> Framed(r.value)
  {
    match reduced
    case Err(e) => Err(e)
    case Ok(g) => Install(c, k, g, ret)
  }

  /** The frame's k fragments give way to g and the state becomes ret; a negative ret
      leaves the frame as well. */
  function Install(c: Config, k: nat, g: Fragment, ret: int): (r: Result<Config, ParseError>)
    requires Framed(c) && k <= |c.fragments|
    ensures r.Ok? && ret >= 0 ==> r.value.state == ret
    ensures r.Ok? ==> Framed(r.value)
  {
    var next := c.(fragments := c.fragments[..|c.fragments| - k] + [g], state := ret);
    if ret < 0 then PopFrame(next) else Ok(next)
  }

  /** The fragment a reduction pushes: the goal's reduction of the taken fragments (the
      most recent first), normalised. */
  function ReduceTaken(v: Variant, goal: Goal, taken: seq<Fragment>): Result<Fragment, ParseError>
  {
    match Reducer.Reduce(v, goal, taken)
    case Err(e) => Err(ReductionFailed(e))
    case Ok(f) => Normalise(v, goal, f)
  }

  /** How a feed ends: the token was shifted; a reduction with a negative return state left
      its frame, which ends the call with the token not yet shifted; or the RETURN that
      loads the next token (the one at state 3, after the library) ended the parse. */
  datatype Outcome = Shifted | FrameLeft | Accepted

  /** One turn of the feed loop: go on with a new state, or stop. */
  datatype StepResult = Continue(next: Config) | Stop(last: Config, outcome: Outcome)

  /** Carrying out one action for the lookahead token. */
  function Perform(c: Config, v: Variant, tok: Token, a: Action): (r: Result<StepResult, ParseError>)
    requires Framed(c)
    ensures r.Ok? && r.value.Continue? ==> Framed(r.value.next)
    ensures r.Ok? && r.value.Stop? ==> Framed(r.value.last)
  {
    match a.kind
    case Shift => Ok(Stop(PushToken(c, tok).(state := a.next), Shifted))
    case Jump => Ok(Continue(PushToken(c, tok).(state := a.next)))
    case CallNonterm => Ok(Continue(CallFrame(c, a.next, a.ret, 0)))
    case CallNontermRec => Ok(Continue(CallFrame(c, a.next, a.ret, 1)))
    case Reduce =>
      if a.goal != NoGoal then
        var next := ReduceFrame(c, v, a.goal, a.ret);
        if next.Err? then Err(next.error)
        else if a.ret < 0 then Ok(Stop(next.value, FrameLeft))
        else Ok(Continue(next.value))
      else
        var next := PopFrame(c);
        if next.Err? then Err(next.error) else Ok(Continue(next.value))
    case Return =>
      if a.loadNext then Ok(Stop(c, Accepted))
      else if c.returnStates == [] then Err(StackUnderflow)
      else Ok(Continue(PopFrame(c).value))
  }

  /** A change of state as the parser object reports it: the error, or success in the
      state d. */
  function Applied(err: Option<ParseError>, d: Config): (r: Result<Config, ParseError>)
    ensures r.Ok? <==> err.None?
  {
    match err
    case None => Ok(d)
    case Some(e) => Err(e)
  }

  /** A step as the parser object reports it: its error, None when feed goes on from
      the state d, the outcome when it stops in d. */
  function Reported(r: Result<Option<Outcome>, ParseError>, d: Config): (s: Result<StepResult, ParseError>)
    ensures s.Err? <==> r.Err?
    ensures s.Ok? ==> (s.value.Continue? <==> r.value.None?)
  {
    match r
    case Err(e) => Err(e)
    case Ok(None) => Ok(Continue(d))
    case Ok(Some(o)) => Ok(Stop(d, o))
  }

  /** One turn of the feed loop: the action the table gives for the current state and the
      lookahead's kind, carried out. */
  function Step(c: Config, v: Variant, tok: Token): (r: Result<StepResult, ParseError>)
    requires Framed(c)
    ensures ChooseAction(v, c.state, tok.kind).Err? ==> r == Err(NoAction(ChooseAction(v, c.state, tok.kind).error))
    ensures ChooseAction(v, c.state, tok.kind).Ok? ==> r == Perform(c, v, tok, ChooseAction(v, c.state, tok.kind).value)
  {
    match ChooseAction(v, c.state, tok.kind)
    case Err(e) => Err(NoAction(e))
    case Ok(a) => Perform(c, v, tok, a)
  }

  /** feed: steps until one stops, at most fuel of them; the state reached and how it
      ended. A failing step leaves the state it was given. */
  function Run(c: Config, v: Variant, tok: Token, fuel: nat): (r: (Config, Result<Outcome, ParseError>))
    requires Framed(c)
    ensures Framed(r.0)
    decreases fuel, 3
  {
    if fuel == 0 then (c, Err(OutOfFuel)) else Turn(c, v, tok, fuel)
  }

  /** A turn of the feed loop with fuel left. It is kept apart from the lookup in Proceed
      so that a fact about a whole run does not bring the table's entries into a proof. */
  function Turn(c: Config, v: Variant, tok: Token, fuel: nat): (r: (Config, Result<Outcome, ParseError>))
    requires Framed(c) && fuel > 0
    ensures Framed(r.0)
    decreases fuel, 2
  {
    Proceed(c, v, tok, fuel)
  }

  /** A feed with fuel left: the action the table gives for the current state and the
      lookahead, then that action and the rest of the run. */
  function Proceed(c: Config, v: Variant, tok: Token, fuel: nat): (r: (Config, Result<Outcome, ParseError>))
    requires Framed(c) && fuel > 0
    ensures Framed(r.0)
    decreases fuel, 1
  {
    match ChooseAction(v, c.state, tok.kind)
    case Err(e) => (c, Err(NoAction(e)))
    case Ok(a) => Act(c, v, tok, fuel, a)
  }

  /** The chosen action carried out: a failure or a stop ends the run, anything else goes
      on with one unit of fuel less. */
  function Act(c: Config, v: Variant, tok: Token, fuel: nat, a: Action): (r: (Config, Result<Outcome, ParseError>))
    requires Framed(c) && fuel > 0
    ensures Framed(r.0)
    decreases fuel, 0
  {
    match Perform(c, v, tok, a)
    case Err(e) => (c, Err(e))
    case Ok(Stop(last, o)) => (last, Ok(o))
    case Ok(Continue(next)) => Run(next, v, tok, fuel - 1)
  }

  /** A step that goes on leaves the rest of the run to the state it reaches. */
  lemma {:induction false} RunContinues(c: Config, v: Variant, tok: Token, fuel: nat, a: Action, next: Config)
    requires Framed(c) && fuel > 0 && ChooseAction(v, c.state, tok.kind) == Ok(a)
    requires Perform(c, v, tok, a) == Ok(Continue(next))
    ensures Framed(next) && Run(c, v, tok, fuel) == Run(next, v, tok, fuel - 1)
  {
    assert Proceed(c, v, tok, fuel) == Act(c, v, tok, fuel, a);
    assert Act(c, v, tok, fuel, a) == Run(next, v, tok, fuel - 1);
  }

  /** A step that stops ends the run there. */
  lemma {:induction false} RunStops(c: Config, v: Variant, tok: Token, fuel: nat, a: Action, last: Config, o: Outcome)
    requires Framed(c) && fuel > 0 && ChooseAction(v, c.state, tok.kind) == Ok(a)
    requires Perform(c, v, tok, a) == Ok(Stop(last, o))
    ensures Run(c, v, tok, fuel) == (last, Ok(o))
  {
    assert Proceed(c, v, tok, fuel) == Act(c, v, tok, fuel, a);
    assert Act(c, v, tok, fuel, a) == (last, Ok(o));
  }

  /** A step that fails, for want of a table entry or in its action, ends the run in the
      state it was given. */
  lemma {:induction false} RunFails(c: Config, v: Variant, tok: Token, fuel: nat, e: ParseError)
    requires Framed(c) && fuel > 0 && Step(c, v, tok) == Err(e)
    ensures Run(c, v, tok, fuel) == (c, Err(e))
  {
    match ChooseAction(v, c.state, tok.kind)
    case Err(_) =>
      assert Proceed(c, v, tok, fuel) == (c, Err(e));
    case Ok(a) =>
      assert Proceed(c, v, tok, fuel) == Act(c, v, tok, fuel, a);
      assert Act(c, v, tok, fuel, a) == (c, Err(e));
  }

  /** finish: the library on top of the fragment stack. */
  function Finish(c: Config): (r: Result<Library, ParseError>)
    ensures r.Ok? <==> c.fragments != [] && c.fragments[|c.fragments| - 1].LibraryFrag?
    ensures r.Ok? ==> r.value == c.fragments[|c.fragments| - 1].library
    ensures r.Err? ==> r.error == NoLibrary
  {
    if c.fragments != [] && c.fragments[|c.fragments| - 1].LibraryFrag? then
      Ok(c.fragments[|c.fragments| - 1].library)
    else Err(NoLibrary)
  }

  /** SHIFT pushes the token, counts it in the current frame, moves to the action's state
      and ends the feed. */
  lemma {:induction false} ShiftPushesToken(c: Config, v: Variant, tok: Token, a: Action)
    requires Framed(c) && a.kind == Shift
    ensures Perform(c, v, tok, a).Ok? && Perform(c, v, tok, a).value.Stop?
    ensures var d := Perform(c, v, tok, a).value.last;
      Perform(c, v, tok, a).value.outcome == Shifted &&
      d.fragments == c.fragments + [TokenFrag(tok, false)] && d.returnStates == c.returnStates &&
      |d.counts| == |c.counts| && d.counts[..|d.counts| - 1] == c.counts[..|c.counts| - 1] &&
      d.counts[|d.counts| - 1] == c.counts[|c.counts| - 1] + 1 && d.state == a.next
  {
  }

  /** CALL_NONTERM opens a frame with count 0 and CALL_NONTERM_REC one with count 1 (the
      expression it continues), remembering the return state; no fragment moves. */
  lemma {:induction false} CallOpensFrame(c: Config, v: Variant, tok: Token, a: Action)
    requires Framed(c) && (a.kind == CallNonterm || a.kind == CallNontermRec)
    ensures Perform(c, v, tok, a).Ok? && Perform(c, v, tok, a).value.Continue?
    ensures var d := Perform(c, v, tok, a).value.next;
      d.fragments == c.fragments && d.returnStates == c.returnStates + [a.ret] &&
      d.counts == c.counts + [if a.kind == CallNonterm then 0 else 1] && d.state == a.next
  {
  }

  /** Leaving a frame just opened goes back to its return state, with the parent frame
      counting one more fragment. */
  lemma {:induction false} CallThenReturn(c: Config, next: int, ret: int, initial: int)
    requires Framed(c)
    ensures PopFrame(CallFrame(c, next, ret, initial)) == Ok(c.(counts := BumpTop(c.counts), state := ret))
  {
    var d := CallFrame(c, next, ret, initial);
    assert d.returnStates[..|c.returnStates|] == c.returnStates;
    assert d.counts[..|c.returnStates| + 1] == c.counts;
  }

  /** RETURN (without loading the next token) and REDUCE with no goal both leave the frame:
      the state becomes the top return state, both stacks lose their top and the parent
      frame counts one more fragment; with no return state left they fail. */
  lemma {:induction false} ReturnLeavesFrame(c: Config, v: Variant, tok: Token, a: Action)
    requires Framed(c) && ((a.kind == Return && !a.loadNext) || (a.kind == Reduce && a.goal == NoGoal))
    ensures c.returnStates == [] ==> Perform(c, v, tok, a) == Err(StackUnderflow)
    ensures c.returnStates != [] ==> Perform(c, v, tok, a).Ok? && Perform(c, v, tok, a).value.Continue?
    ensures c.returnStates != [] ==>
      var d := Perform(c, v, tok, a).value.next;
      var n := |c.returnStates|;
      d.fragments == c.fragments && d.state == c.returnStates[n - 1] && d.returnStates == c.returnStates[..n - 1] &&
      d.counts == c.counts[..n - 1] + [c.counts[n - 1] + 1]
  {
  }

  /** A reduction whose pieces succeed: the frame's fragments give way to the normalised
      result, the state becomes the return state, and a negative one leaves the frame. */
  lemma {:induction false} ReduceFrameOk(c: Config, v: Variant, goal: Goal, ret: int, g: Fragment)
    requires Framed(c) && TopCount(c) <= |c.fragments|
    requires ReduceTaken(v, goal, Pending(c)) == Ok(g)
    ensures var next := c.(fragments := c.fragments[..|c.fragments| - TopCount(c)] + [g], state := ret);
      ReduceFrame(c, v, goal, ret) == if ret < 0 then PopFrame(next) else Ok(next)
  {
    var k := TopCount(c);
    assert ReduceFrame(c, v, goal, ret) == Place(c, k, ReduceTaken(v, goal, Pending(c)), ret);
    assert Place(c, k, Ok(g), ret) == Install(c, k, g, ret);
  }

  /** A reduction fails when the frame counts more fragments than the stack holds, and
      otherwise exactly when the goal's reduction or its normalisation fails, with that
      error. */
  lemma {:induction false} ReduceFrameFails(c: Config, v: Variant, goal: Goal, ret: int)
    requires Framed(c)
    ensures |c.fragments| < TopCount(c) ==> ReduceFrame(c, v, goal, ret) == Err(StackUnderflow)
    ensures TopCount(c) <= |c.fragments| && ReduceTaken(v, goal, Pending(c)).Err? ==>
      ReduceFrame(c, v, goal, ret) == Err(ReduceTaken(v, goal, Pending(c)).error)
  {
    if TopCount(c) <= |c.fragments| {
      var placed := ReduceTaken(v, goal, Pending(c));
      assert ReduceFrame(c, v, goal, ret) == Place(c, TopCount(c), placed, ret);
    }
  }

  /** A REDUCE with a goal and a return state takes exactly the frame's count of fragments
      off the stack and pushes one fragment of the goal's kind in their place; the
      frame stacks are untouched and the state becomes the return state. */
  lemma {:induction false} ReduceReplacesFrame(c: Config, v: Variant, goal: Goal, ret: int)
    requires Framed(c) && ret >= 0 && ReduceFrame(c, v, goal, ret).Ok?
    ensures var k := Taken(c.counts[|c.counts| - 1]);
      var d := ReduceFrame(c, v, goal, ret).value;
      k <= |c.fragments| && |d.fragments| == |c.fragments| - k + 1 &&
      d.fragments[..|c.fragments| - k] == c.fragments[..|c.fragments| - k] &&
      d.returnStates == c.returnStates && d.counts == c.counts && d.state == ret &&
      (goal.StatementGoal? ==> d.fragments[|d.fragments| - 1].StatementFrag?) &&
      (goal.ExpressionGoal? ==> d.fragments[|d.fragments| - 1].ExpressionFrag?) &&
      (goal.FunctionGoal? ==> d.fragments[|d.fragments| - 1].FunctionFrag?) &&
      (goal.LibraryGoal? ==> d.fragments[|d.fragments| - 1].LibraryFrag?)
  {
    var f := Reducer.Reduce(v, goal, Pending(c)).value;
    var g := Normalise(v, goal, f).value;
    assert GetTag(g) == GetTag(f);
  }

  /** Under this table a feed ends only by shifting the token or by accepting: every
      reduction returns to a state that is not negative, so none leaves its frame and ends
      the call. */
  lemma {:induction false} FeedEndsByShiftOrAccept(c: Config, v: Variant, tok: Token)
    requires Framed(c)
    ensures Step(c, v, tok).Ok? && Step(c, v, tok).value.Stop? ==>
      Step(c, v, tok).value.outcome == Shifted || Step(c, v, tok).value.outcome == Accepted
  {
    ChosenEntriesAreShaped(v, c.state, tok.kind);
  }

  /** One more unit of fuel changes a feed only through the rest of the run after its
      first step: a step that fails or stops ends both runs alike, and a step that goes on
      leaves both runs to the state it reaches. */
  lemma {:induction false} RunOneMore(c: Config, v: Variant, tok: Token, fuel: nat) returns (same: bool, next: Config)
    requires Framed(c) && fuel > 0
    ensures same ==> Run(c, v, tok, fuel + 1) == Run(c, v, tok, fuel)
    ensures !same ==> Framed(next) && Run(c, v, tok, fuel) == Run(next, v, tok, fuel - 1) && Run(c, v, tok, fuel + 1) == Run(next, v, tok, fuel)
  {
    assert Run(c, v, tok, fuel) == Proceed(c, v, tok, fuel);
    assert Run(c, v, tok, fuel + 1) == Proceed(c, v, tok, fuel + 1);
    var choice := ChooseAction(v, c.state, tok.kind);
    if choice.Err? {
      same, next := true, c;
    } else {
      assert Proceed(c, v, tok, fuel) == Act(c, v, tok, fuel, choice.value);
      assert Proceed(c, v, tok, fuel + 1) == Act(c, v, tok, fuel + 1, choice.value);
      var s := Perform(c, v, tok, choice.value);
      same := !(s.Ok? && s.value.Continue?);
      next := if same then c else s.value.next;
    }
  }

  /** A feed result that reports running out of its step bound. */
  predicate Exhausted(r: (Config, Result<Outcome, ParseError>))
  {
    r.1.Err? && r.1.error.OutOfFuel?
  }

  /** More fuel does not change a feed that ended without running out of it. */
  lemma {:induction false} RunFuelMonotone(c: Config, v: Variant, tok: Token, fuel: nat)
    requires Framed(c) && !Exhausted(Run(c, v, tok, fuel))
    ensures Run(c, v, tok, fuel + 1) == Run(c, v, tok, fuel)
    decreases fuel
  {
    if fuel > 0 {
      var same, next := RunOneMore(c, v, tok, fuel);
      if !same {
        RunFuelMonotone(next, v, tok, fuel - 1);
      }
    }
  }

  /** The reduction at the end of input, as intended: the functions of the outer frame
      become the library, in declaration order, in place of their fragments. */
  lemma {:induction false} LibraryReduction(pre: seq<Fragment>, fs: seq<Function>, c: Config)
    requires Framed(c) && c.fragments == pre + Reducer.FunctionFrags(fs) && c.counts[|c.counts| - 1] == |fs|
    ensures ReduceFrame(c, Corrected, LibraryGoal, 3) == Ok(c.(fragments := pre + [LibraryFrag(Library(fs), false)], state := 3))
  {
    var k := |fs|;
    assert c.fragments[|c.fragments| - k..] == Reducer.FunctionFrags(fs);
    assert c.fragments[..|c.fragments| - k] == pre;
    Reducer.LibraryRoundTrip(fs);
    assert Reducer.Reduce(Corrected, LibraryGoal, Reverse(Reducer.FunctionFrags(fs))) == Ok(LibraryFrag(Library(fs), false));
  }

  /** The same reduction as written: the library holds every function but the last, and a
      frame with no function at all is malformed. */
  lemma {:induction false} LibraryReductionAsWritten(pre: seq<Fragment>, fs: seq<Function>, c: Config)
    requires Framed(c) && c.fragments == pre + Reducer.FunctionFrags(fs) && c.counts[|c.counts| - 1] == |fs|
    ensures fs == [] ==> ReduceFrame(c, AsWritten, LibraryGoal, 3) == Err(ReductionFailed(Reducer.MalformedFragments))
    ensures fs != [] ==>
      ReduceFrame(c, AsWritten, LibraryGoal, 3) == Ok(c.(fragments := pre + [LibraryFrag(Library(fs[..|fs| - 1]), false)], state := 3))
  {
    var k := |fs|;
    assert c.fragments[|c.fragments| - k..] == Reducer.FunctionFrags(fs);
    assert c.fragments[..|c.fragments| - k] == pre;
    if fs == [] {
      assert Reverse(Reducer.FunctionFrags(fs)) == [];
      assert ReduceTaken(AsWritten, LibraryGoal, Pending(c)) == Err(ReductionFailed(Reducer.MalformedFragments));
    } else {
      Reducer.LibraryAsWrittenDropsLast(fs);
      assert Reducer.Reduce(AsWritten, LibraryGoal, Reverse(Reducer.FunctionFrags(fs))) ==
        Ok(LibraryFrag(Library(fs[..|fs| - 1]), false));
    }
  }

  /** State 3 accepts whatever the lookahead, leaving the stacks as they are. */
  lemma {:induction false} AcceptsAtThree(d: Config, v: Variant, tok: Token, fuel: nat)
    requires Framed(d) && d.state == 3 && fuel > 0
    ensures Run(d, v, tok, fuel) == (d, Ok(Accepted))
  {
    AcceptState(v, tok.kind);
    RunStops(d, v, tok, fuel, LoadAction(Return, true), d, Accepted);
  }

  /** End of input at 93: the first step reduces the library and moves to 3. */
  lemma {:induction false} LibraryStepRuns(c: Config, v: Variant, tok: Token, fuel: nat, d: Config)
    requires Framed(c) && c.state == 93 && tok.kind == Eof && fuel >= 1
    requires ReduceFrame(c, v, LibraryGoal, 3) == Ok(d)
    ensures Run(c, v, tok, fuel) == Run(d, v, tok, fuel - 1)
  {
    LibraryEnd(v);
    RunContinues(c, v, tok, fuel, GoalAction(Reduce, LibraryGoal, 3), d);
  }

  /** At the end of input, state 93 reduces the outer frame into the library and state 3
      accepts, leaving the reduced stacks. */
  lemma {:induction false} EndOfInputRuns(c: Config, v: Variant, tok: Token, fuel: nat, d: Config)
    requires Framed(c) && c.state == 93 && tok.kind == Eof && fuel >= 2
    requires ReduceFrame(c, v, LibraryGoal, 3) == Ok(d)
    ensures Run(c, v, tok, fuel) == (d, Ok(Accepted))
  {
    LibraryStepRuns(c, v, tok, fuel, d);
    AcceptsAtThree(d, v, tok, fuel - 1);
  }

  /** As intended, finish then returns every function of the program, in order. */
  lemma {:induction false} EndOfInputAccepts(pre: seq<Fragment>, fs: seq<Function>, c: Config, tok: Token, fuel: nat)
    requires Framed(c) && c.state == 93 && tok.kind == Eof && fuel >= 2
    requires c.fragments == pre + Reducer.FunctionFrags(fs) && c.counts[|c.counts| - 1] == |fs|
    ensures Run(c, Corrected, tok, fuel).1 == Ok(Accepted)
    ensures Finish(Run(c, Corrected, tok, fuel).0) == Ok(Library(fs))
  {
    var library := LibraryFrag(Library(fs), false);
    var d := c.(fragments := pre + [library], state := 3);
    LibraryReduction(pre, fs, c);
    EndOfInputRuns(c, Corrected, tok, fuel, d);
    assert d.fragments[|d.fragments| - 1] == library;
  }

  /** As written, finish returns the program's functions without the last one, and a
      program without functions fails the reduction. */
  lemma {:induction false} EndOfInputAsWritten(pre: seq<Fragment>, fs: seq<Function>, c: Config, tok: Token, fuel: nat)
    requires Framed(c) && c.state == 93 && tok.kind == Eof && fuel >= 2
    requires c.fragments == pre + Reducer.FunctionFrags(fs) && c.counts[|c.counts| - 1] == |fs|
    ensures fs == [] ==> Run(c, AsWritten, tok, fuel).1 == Err(ReductionFailed(Reducer.MalformedFragments))
    ensures fs != [] ==> Run(c, AsWritten, tok, fuel).1 == Ok(Accepted)
    ensures fs != [] ==> Finish(Run(c, AsWritten, tok, fuel).0) == Ok(Library(fs[..|fs| - 1]))
  {
    if fs == [] {
      NoFunctionFailsAsWritten(pre, c, tok, fuel);
    } else {
      LastFunctionDroppedAsWritten(pre, fs, c, tok, fuel);
    }
  }

  /** As written, end of input with no function before it fails the library reduction. */
  lemma {:induction false} NoFunctionFailsAsWritten(pre: seq<Fragment>, c: Config, tok: Token, fuel: nat)
    requires Framed(c) && c.state == 93 && tok.kind == Eof && fuel >= 2
    requires c.fragments == pre + Reducer.FunctionFrags([]) && c.counts[|c.counts| - 1] == 0
    ensures Run(c, AsWritten, tok, fuel).1 == Err(ReductionFailed(Reducer.MalformedFragments))
  {
    LibraryReductionAsWritten(pre, [], c);
    LibraryEnd(AsWritten);
    RunFails(c, AsWritten, tok, fuel, ReductionFailed(Reducer.MalformedFragments));
  }

  /** As written, end of input after functions accepts a library without the last one. */
  lemma {:induction false} LastFunctionDroppedAsWritten(pre: seq<Fragment>, fs: seq<Function>, c: Config, tok: Token, fuel: nat)
    requires Framed(c) && c.state == 93 && tok.kind == Eof && fuel >= 2 && fs != []
    requires c.fragments == pre + Reducer.FunctionFrags(fs) && c.counts[|c.counts| - 1] == |fs|
    ensures Run(c, AsWritten, tok, fuel).1 == Ok(Accepted)
    ensures Finish(Run(c, AsWritten, tok, fuel).0) == Ok(Library(fs[..|fs| - 1]))
  {
    LibraryReductionAsWritten(pre, fs, c);
    var library := LibraryFrag(Library(fs[..|fs| - 1]), false);
    var d := c.(fragments := pre + [library], state := 3);
    EndOfInputRuns(c, AsWritten, tok, fuel, d);
    assert d.fragments[|d.fragments| - 1] == library;
  }

  /** An empty program: end of input at state 0 is shifted (to state 2) and no library is
      ever built, so finish fails where the source returns an empty library. */
  lemma {:induction false} EmptyProgramHasNoLibrary(v: Variant, tok: Token, fuel: nat)
    requires tok.kind == Eof && fuel >= 1
    ensures Run(Initial(), v, tok, fuel) == (Config([TokenFrag(tok, false)], [-1], [-1, 1], 2), Ok(Shifted))
    ensures Finish(Run(Initial(), v, tok, fuel).0) == Err(NoLibrary)
  {
    var c := Initial();
    var a := StateAction(Shift, 2, -1);
    var d := Config([TokenFrag(tok, false)], [-1], [-1, 1], 2);
    assert ChooseAction(v, 0, Eof) == Ok(a);
    assert [] + [TokenFrag(tok, false)] == [TokenFrag(tok, false)];
    assert BumpTop([-1, 0]) == [-1, 1] by {
      assert [-1, 0][..1] + [0 + 1] == [-1, 1];
    }
    assert PushToken(c, tok).(state := 2) == d;
    assert Perform(c, v, tok, a) == Ok(Stop(d, Shifted));
    RunStops(c, v, tok, fuel, a, d, Shifted);
  }

  /** The parser object: the three stacks and the state, changed in place by feed, and
      the reading of the front end it parses by. */
  class Parser {
    const variant: Variant
    var fragments: seq<Fragment>
    var returnStates: seq<int>
    var counts: seq<int>
    var state: int

    function Current(): (c: Config)
      reads this
      ensures c.fragments == fragments && c.returnStates == returnStates && c.counts == counts && c.state == state
    {
      Config(fragments, returnStates, counts, state)
    }

    predicate Valid()
      reads this
    {
      Framed(Current())
    }

    constructor (v: Variant)
      ensures variant == v && Current() == Initial() && Valid()
    {
      variant := v;
      fragments := [];
      returnStates := [-1];
      counts := [-1, 0];
      state := 0;
    }

    /** Leaving the current frame; nothing changes when there is no return state. */
    method LeaveFrame() returns (ok: bool)
      requires Valid()
      modifies this
      ensures Valid()
      ensures ok <==> PopFrame(old(Current())).Ok?
      ensures ok ==> Current() == PopFrame(old(Current())).value
      ensures !ok ==> Current() == old(Current())
    {
      if returnStates == [] {
        return false;
      }
      state := returnStates[|returnStates| - 1];
      returnStates := returnStates[..|returnStates| - 1];
      counts := counts[..|counts| - 1];
      counts := counts[..|counts| - 1] + [counts[|counts| - 1] + 1];
      ok := true;
    }

    /** The reduced fragment g takes the place of the frame's fragments (rest is what
        lies below them) and the state becomes ret; a negative ret leaves the frame as
        well. Nothing changes when there is no frame to leave. */
    method InstallFrame(g: Fragment, rest: seq<Fragment>, ret: int) returns (err: Option<ParseError>)
      requires Valid() && TopCount(Current()) <= |fragments|
      requires rest == fragments[..|fragments| - TopCount(Current())]
      modifies this
      ensures Valid()
      ensures Install(old(Current()), TopCount(old(Current())), g, ret) == Applied(err, Current())
      ensures err.Some? ==> Current() == old(Current())
    {
      if ret < 0 && returnStates == [] {
        return Some(StackUnderflow);
      }
      fragments := rest + [g];
      state := ret;
      if ret < 0 {
        var left := LeaveFrame();
      }
      err := None;
    }

    /** The outcome of a reduction installed: its error, leaving the stacks alone, or its
        fragment in place of the frame's (rest is what lies below them). */
    method PlaceFrame(reduced: Result<Fragment, ParseError>, rest: seq<Fragment>, ret: int) returns (err: Option<ParseError>)
      requires Valid() && TopCount(Current()) <= |fragments|
      requires rest == fragments[..|fragments| - TopCount(Current())]
      modifies this
      ensures Valid()
      ensures Place(old(Current()), TopCount(old(Current())), reduced, ret) == Applied(err, Current())
      ensures err.Some? ==> Current() == old(Current())
    {
      if reduced.Err? {
        return Some(reduced.error);
      }
      err := InstallFrame(reduced.value, rest, ret);
    }

    /** A REDUCE with a goal: the frame's fragments are popped one by one, the most recent
        first, reduced, and the result pushed; nothing changes when it fails. */
    method ReduceGoal(goal: Goal, ret: int) returns (err: Option<ParseError>)
      requires Valid()
      modifies this
      ensures Valid()
      ensures ReduceFrame(old(Current()), variant, goal, ret) == Applied(err, Current())
      ensures err.Some? ==> Current() == old(Current())
    {
      ghost var c := Current();
      var ok, popped, rest := Resolver.PopTop(fragments, Taken(counts[|counts| - 1]));
      if !ok {
        return Some(StackUnderflow);
      }
      assert popped == Pending(c);
      err := PlaceFrame(ReduceTaken(variant, goal, popped), rest, ret);
    }

    /** One action of feed, carried out on the stacks: None when feed goes on, the
        outcome when it stops; nothing changes when it fails. */
    method PerformAction(tok: Token, a: Action) returns (r: Result<Option<Outcome>, ParseError>)
      requires Valid()
      modifies this
      ensures Valid()
      ensures Perform(old(Current()), variant, tok, a) == Reported(r, Current())
      ensures r.Err? ==> Current() == old(Current())
    {
      match a.kind {
        case Shift =>
          fragments := fragments + [TokenFrag(tok, false)];
          counts := counts[..|counts| - 1] + [counts[|counts| - 1] + 1];
          state := a.next;
          return Ok(Some(Shifted));
        case Jump =>
          state := a.next;
          fragments := fragments + [TokenFrag(tok, false)];
          counts := counts[..|counts| - 1] + [counts[|counts| - 1] + 1];
        case CallNonterm =>
          state := a.next;
          counts := counts + [0];
          returnStates := returnStates + [a.ret];
        case CallNontermRec =>
          state := a.next;
          counts := counts + [1];
          returnStates := returnStates + [a.ret];
        case Reduce =>
          if a.goal != NoGoal {
            var err := ReduceGoal(a.goal, a.ret);
            if err.Some? {
              return Err(err.value);
            }
            if a.ret < 0 {
              return Ok(Some(FrameLeft));
            }
          } else {
            var ok := LeaveFrame();
            if !ok {
              return Err(StackUnderflow);
            }
          }
        case Return =>
          if a.loadNext {
            return Ok(Some(Accepted));
          }
          var ok := LeaveFrame();
          if !ok {
            return Err(StackUnderflow);
          }
      }
      r := Ok(None);
    }

    /** One turn of feed: the action for the current state and the token, carried out;
        the outcome of the feed when it stops here (the state is then the one the run
        ends in), None when the rest of the run is left to the state reached. */
    method Advance(tok: Token, ghost fuel: nat) returns (stop: Option<Result<Outcome, ParseError>>)
      requires Valid() && fuel > 0
      modifies this
      ensures Valid()
      ensures stop.Some? ==> (Current(), stop.value) == Run(old(Current()), variant, tok, fuel)
      ensures stop.None? ==> Run(Current(), variant, tok, fuel - 1) == Run(old(Current()), variant, tok, fuel)
    {
      ghost var before := Current();
      var choice := ChooseAction(variant, state, tok.kind);
      if choice.Err? {
        RunFails(before, variant, tok, fuel, NoAction(choice.error));
        return Some(Err(NoAction(choice.error)));
      }
      var done := PerformAction(tok, choice.value);
      if done.Err? {
        RunFails(before, variant, tok, fuel, done.error);
        return Some(Err(done.error));
      }
      if done.value.Some? {
        RunStops(before, variant, tok, fuel, choice.value, Current(), done.value.value);
        return Some(Ok(done.value.value));
      }
      RunContinues(before, variant, tok, fuel, choice.value, Current());
      stop := None;
    }

    /** feed: choose the action for the current state and the token and carry it out,
        until a SHIFT has pushed the token (or the parse is accepted), for at most fuel
        actions. */
    method Feed(tok: Token, fuel: nat) returns (r: Result<Outcome, ParseError>)
      requires Valid()
      modifies this
      ensures Valid()
      ensures (Current(), r) == Run(old(Current()), variant, tok, fuel)
    {
      var f := fuel;
      while true
        invariant Valid()
        invariant Run(Current(), variant, tok, f) == Run(old(Current()), variant, tok, fuel)
        decreases f
      {
        if f == 0 {
          return Err(OutOfFuel);
        }
        var stop := Advance(tok, f);
        if stop.Some? {
          return stop.value;
        }
        f := f - 1;
      }
    }

    /** finish. */
    method FinishParse() returns (r: Result<Library, ParseError>)
      ensures r == Finish(Current())
    {
      if fragments != [] && fragments[|fragments| - 1].LibraryFrag? {
        return Ok(fragments[|fragments| - 1].library);
      }
      return Err(NoLibrary);
    }
  }
}
