/** What rpn_expr does with a tree of unary and binary operators over operands, the trees
    the parser builds for expressions without a ternary. The corrected flattening of such
    a tree reads, left to right, as operands and operators in their proper places (a prefix
    operator before its operand, a postfix one after it, a binary one between its two), and
    on every list that reads so, rpn_ast applies every operator it pushes and ends with
    exactly one tree on its output stack. As written, a left operand that is itself an
    operator tree is pushed as an operator with no operands, and resolution fails. */
module InfixResolution {
  import opened Wrappers
  import opened Expressions
  import opened Variants
  import opened Resolver

  /** A tree of unary and binary operators over operands, every node with as many
      children as it takes. */
  predicate Infix(e: Expr)
    decreases Size(e)
  {
    var cs := ChildrenOf(e);
    SizeOfNode(e);
    SizeOfChildren(cs);
    if IsBinaryKind(e.kind) && |cs| == 2 then
      SizeOfChildren(cs[1..]);
      Infix(cs[0]) && Infix(cs[1])
    else IsAtom(e.kind) || (IsUnaryKind(e.kind) && |cs| == 1 && Infix(cs[0]))
  }

  /** One entry of a flattened list read after an operand (`operand`) or not: an operand
      and a prefix operator come where no operand precedes, a binary and a postfix operator
      where one does; the result says whether an operand now precedes. */
  function Next(x: Expr, operand: bool): Option<bool>
  {
    if IsAtom(x.kind) then (if operand then None else Some(true))
    else if IsBinaryKind(x.kind) then (if operand then Some(false) else None)
    else if IsUnaryKind(x.kind) && IsPostfix(x.kind) then (if operand then Some(true) else None)
    else if IsUnaryKind(x.kind) then (if operand then None else Some(false))
    else None
  }

  /** A flattened list read from the left; None when an entry is out of place. */
  function Reading(s: seq<Expr>, operand: bool): Option<bool>
  {
    if s == [] then Some(operand)
    else match Next(s[0], operand)
      case None => None
      case Some(q) => Reading(s[1..], q)
  }

  /** A list that reads as one complete expression: it starts without an operand before it
      and ends just after one. */
  predicate ReadsWhole(s: seq<Expr>) {
    Reading(s, false) == Some(true)
  }

  lemma {:induction false} ReadingAppend(a: seq<Expr>, b: seq<Expr>, operand: bool)
    ensures Reading(a + b, operand) ==
      match Reading(a, operand) case None => None case Some(q) => Reading(b, q)
    decreases |a|
  {
    if a == [] {
      assert a + b == b;
    } else {
      assert (a + b)[0] == a[0] && (a + b)[1..] == a[1..] + b;
      match Next(a[0], operand)
      case None =>
      case Some(q) => ReadingAppend(a[1..], b, q);
    }
  }

  lemma {:induction false} ReadingOne(x: Expr, operand: bool)
    ensures Reading([x], operand) == Next(x, operand)
  {
    assert [x][1..] == [];
  }

  lemma {:induction false} ReadingFrom(s: seq<Expr>, i: nat, operand: bool)
    requires i < |s|
    ensures Reading(s[i..], operand) ==
      match Next(s[i], operand) case None => None case Some(q) => Reading(s[i + 1..], q)
  {
    assert s[i..][0] == s[i] && s[i..][1..] == s[i + 1..];
  }

  /** The corrected flattening of an operator tree reads as one complete expression. */
  lemma {:induction false} FlattenReadsWhole(e: Expr)
    requires Infix(e)
    ensures Flatten(e, Corrected).Ok? && ReadsWhole(Flatten(e, Corrected).value)
    decreases Size(e)
  {
    var cs := ChildrenOf(e);
    SizeOfNode(e);
    SizeOfChildren(cs);
    ArityCategories(e.kind);
    if IsAtom(e.kind) {
      ReadingOne(e, false);
      ReadingAppend([e], [], true);
    } else if IsUnaryKind(e.kind) {
      FlattenReadsWhole(cs[0]);
      assert cs == [cs[0]];
      FlattenAllOne(cs[0], Corrected);
      FlattenUnaryShape(e);
      var operand := Flatten(cs[0], Corrected).value;
      ReadingOne(e, false);
      ReadingOne(e, true);
      if IsPostfix(e.kind) {
        assert operand + [e] + [] == operand + [e];
        ReadingAppend(operand, [e], false);
      } else {
        assert [] + [e] + operand == [e] + operand;
        ReadingAppend([e], operand, false);
      }
    } else {
      SizeOfChildren(cs[1..]);
      FlattenReadsWhole(cs[0]);
      FlattenReadsWhole(cs[1]);
      assert cs[1..] == [cs[1]];
      FlattenAllOne(cs[1], Corrected);
      FlattenOperatorShape(e);
      var left, right := Flatten(cs[0], Corrected).value, Flatten(cs[1], Corrected).value;
      ReadingOne(e, true);
      ReadingAppend(left, [e], false);
      ReadingAppend(left + [e], right, false);
    }
  }

  /** The binary operators among those waiting on the operator stack. */
  function Binaries(ops: seq<ExprKind>): (n: nat)
    ensures n <= |ops|
  {
    if ops == [] then 0
    else Binaries(ops[..|ops| - 1]) + (if IsBinaryKind(ops[|ops| - 1]) then 1 else 0)
  }

  /** The stacks of rpn_ast while it reads a list that reads whole: only unary and binary
      operators wait, the output stack holds one tree per waiting binary operator and one
      more when an operand was read last, and no postfix operator waits on top when an
      operator was read last. */
  predicate Balanced(ops: seq<ExprKind>, out: seq<Expr>, operand: bool) {
    (forall j :: 0 <= j < |ops| ==> IsUnaryKind(ops[j]) || IsBinaryKind(ops[j])) &&
    |out| == Binaries(ops) + (if operand then 1 else 0) &&
    (!operand && ops != [] ==> !IsPostfix(ops[|ops| - 1]))
  }

  /** After an operand, the operator on top always finds its operands. */
  lemma {:induction false} PopBalanced(ops: seq<ExprKind>, out: seq<Expr>)
    requires ops != [] && Balanced(ops, out, true)
    ensures Apply(ops[|ops| - 1], out).Ok? && Balanced(ops[..|ops| - 1], Apply(ops[|ops| - 1], out).value, true)
  {
    var top := ops[|ops| - 1];
    var rest := ops[..|ops| - 1];
    ArityCategories(top);
    assert forall j :: 0 <= j < |rest| ==> rest[j] == ops[j];
  }

  /** Pushing the operator just read keeps the stacks balanced for the next entry. */
  lemma {:induction false} PushBalanced(ops: seq<ExprKind>, out: seq<Expr>, x: Expr, operand: bool, q: bool)
    requires Balanced(ops, out, operand) && !IsAtom(x.kind) && Next(x, operand) == Some(q)
    ensures Balanced(ops + [x.kind], out, q)
  {
    var ops' := ops + [x.kind];
    assert ops'[..|ops|] == ops && ops'[|ops|] == x.kind;
    assert forall j :: 0 <= j < |ops| ==> ops'[j] == ops[j];
  }

  /** After an operator, an incoming prefix operator pops nothing: what waits on top binds
      no tighter than it, or as tight and to the right. */
  lemma {:induction false} PrefixPopsNothing(ops: seq<ExprKind>, out: seq<Expr>, k: ExprKind)
    requires Balanced(ops, out, false) && ops != [] && IsUnaryKind(k) && !IsPostfix(k)
    ensures !ShouldPop(k, ops[|ops| - 1])
  {
    var top := ops[|ops| - 1];
    ArityCategories(k);
    ArityCategories(top);
    OperatorPrecedenceRange(k);
    OperatorPrecedenceRange(top);
  }

  /** The final loop applies every waiting operator and leaves exactly one tree. */
  lemma {:induction false} FlushLeavesOne(ops: seq<ExprKind>, out: seq<Expr>)
    requires Balanced(ops, out, true)
    ensures Flush(ops, out).Ok? && |Flush(ops, out).value| == 1
    decreases |ops|
  {
    if ops != [] {
      PopBalanced(ops, out);
      var out' := Apply(ops[|ops| - 1], out).value;
      FlushPop(ops, out, out');
      FlushLeavesOne(ops[..|ops| - 1], out');
    }
  }

  /** The main loop on a rest of the list that reads whole from where it stands. */
  lemma {:induction false} RunLeavesOne(exprs: seq<Expr>, i: nat, ops: seq<ExprKind>, out: seq<Expr>, operand: bool)
    requires i <= |exprs| && Reading(exprs[i..], operand) == Some(true) && Balanced(ops, out, operand)
    ensures Run(exprs, i, ops, out).Ok? && |Run(exprs, i, ops, out).value| == 1
    decreases |exprs| - i, 1, 0
  {
    if i == |exprs| {
      assert exprs[i..] == [];
      RunEnd(exprs, ops, out);
      FlushLeavesOne(ops, out);
    } else {
      ReadingFrom(exprs, i, operand);
      if IsAtom(exprs[i].kind) {
        RunOperand(exprs, i, ops, out);
        RunLeavesOne(exprs, i + 1, ops, out + [exprs[i]], true);
      } else {
        RunOperator(exprs, i, ops, out);
        DrainLeavesOne(exprs, i, ops, out, operand);
      }
    }
  }

  /** An operator read: the waiting operators it pops are applied, then it is pushed. */
  lemma {:induction false} DrainLeavesOne(exprs: seq<Expr>, i: nat, ops: seq<ExprKind>, out: seq<Expr>, operand: bool)
    requires i < |exprs| && !IsAtom(exprs[i].kind)
    requires Reading(exprs[i..], operand) == Some(true) && Balanced(ops, out, operand)
    ensures Drain(exprs, i, ops, out).Ok? && |Drain(exprs, i, ops, out).value| == 1
    decreases |exprs| - i, 0, |ops|
  {
    var x := exprs[i];
    ReadingFrom(exprs, i, operand);
    var q := Next(x, operand).value;
    if ops != [] && ShouldPop(x.kind, ops[|ops| - 1]) {
      if !operand {
        PrefixPopsNothing(ops, out, x.kind);
        assert false;
      }
      PopBalanced(ops, out);
      var out' := Apply(ops[|ops| - 1], out).value;
      DrainPop(exprs, i, ops, out, out');
      DrainLeavesOne(exprs, i, ops[..|ops| - 1], out', true);
    } else {
      DrainPush(exprs, i, ops, out);
      PushBalanced(ops, out, x, operand, q);
      RunLeavesOne(exprs, i + 1, ops + [x.kind], out, q);
    }
  }

  /** rpn_ast on a list that reads whole ends with exactly one tree on its output stack. */
  lemma {:induction false} OutputStackLeavesOne(exprs: seq<Expr>)
    requires ReadsWhole(exprs)
    ensures OutputStack(exprs).Ok? && |OutputStack(exprs).value| == 1
  {
    assert exprs[0..] == exprs;
    RunLeavesOne(exprs, 0, [], [], false);
  }

  lemma {:induction false} InfixIsTernaryFree(e: Expr)
    requires Infix(e)
    ensures TernaryFree(e)
    decreases Size(e)
  {
    var cs := ChildrenOf(e);
    SizeOfNode(e);
    SizeOfChildren(cs);
    ArityCategories(e.kind);
    if !IsAtom(e.kind) {
      if IsUnaryKind(e.kind) {
        InfixIsTernaryFree(cs[0]);
        assert cs[1..] == [];
      } else {
        SizeOfChildren(cs[1..]);
        InfixIsTernaryFree(cs[0]);
        InfixIsTernaryFree(cs[1]);
        assert cs[1..][0] == cs[1] && cs[1..][1..] == [];
        assert TernaryFreeAll(cs[1..]);
      }
    }
  }

  /** rpn_expr, corrected, on an operator tree: resolution succeeds, the output stack ends
      with the result alone, and the result has exactly the operands of the tree, in
      order. */
  lemma {:induction false} ResolveInfix(e: Expr)
    requires Infix(e) && !IsAtom(e.kind)
    ensures Resolve(e, Corrected).Ok?
    ensures OutputStack(Flatten(e, Corrected).value) == Ok([Resolve(e, Corrected).value])
    ensures Leaves(Resolve(e, Corrected).value) == Leaves(e)
  {
    FlattenReadsWhole(e);
    var flat := Flatten(e, Corrected).value;
    OutputStackLeavesOne(flat);
    var out := OutputStack(flat).value;
    ResolveOperator(e, Corrected, flat, out);
    assert out == [out[0]];
    InfixIsTernaryFree(e);
    ResolveKeepsOperands(e);
    LeavesOfOne(out[0]);
  }

  /** As written, a binary operator contributes its left operand unflattened, then itself,
      then its right operand flattened; a left operand that is an operator tree brings
      none of its operands to the output. */
  lemma {:induction false} FlattenAsWrittenShape(e: Expr)
    requires IsBinaryKind(e.kind) && |ChildrenOf(e)| == 2 && Flatten(ChildrenOf(e)[1], AsWritten).Ok?
    ensures var cs := ChildrenOf(e);
      Flatten(e, AsWritten) == Ok([cs[0]] + [e] + Flatten(cs[1], AsWritten).value)
    ensures var cs := ChildrenOf(e);
      !IsAtom(cs[0].kind) ==> AtomsOf(Flatten(e, AsWritten).value) == AtomsOf(Flatten(cs[1], AsWritten).value)
  {
    var cs := ChildrenOf(e);
    ArityCategories(e.kind);
    assert cs[1..] == [cs[1]];
    FlattenAllOne(cs[1], AsWritten);
    var right := Flatten(cs[1], AsWritten).value;
    if !IsAtom(cs[0].kind) {
      AtomsAround([], cs[0], [e] + right);
      AtomsAround([], e, right);
      assert [] + [cs[0]] + ([e] + right) == [cs[0]] + [e] + right;
      assert [] + [e] + right == [e] + right;
      assert AtomsOf([]) == [];
    }
  }

  /** `(a + b) + c`, which resolution itself builds from `a + b + c`: as written, the
      left operand a + b is pushed as an operator, and the second + pops it with no
      operand on the output stack; corrected, the tree comes back unchanged. */
  lemma {:induction false} LeftNestedAsWritten(k1: ExprKind, k2: ExprKind, a: Expr, b: Expr, c: Expr)
    requires IsBinaryKind(k1) && IsBinaryKind(k2) && ShouldPop(k2, k1)
    requires IsAtom(a.kind) && IsAtom(b.kind) && IsAtom(c.kind)
    ensures Resolve(Bin(k2, Bin(k1, a, b), c), AsWritten) == Err(OperandMissing)
  {
    var ab := Bin(k1, a, b);
    var e := Bin(k2, ab, c);
    var flat := [ab, e, c];
    ArityCategories(k1);
    ArityCategories(k2);
    FlattenAsWrittenShape(e);
    assert Flatten(c, AsWritten) == Ok([c]);
    assert [ab] + [e] + [c] == flat;
    RunOperator(flat, 0, [], []);
    DrainPush(flat, 0, [], []);
    assert [] + [k1] == [k1];
    RunOperator(flat, 1, [k1], []);
    assert Drain(flat, 1, [k1], []) == Err(OperandMissing);
  }

  lemma {:induction false} LeftNestedCorrected(k1: ExprKind, k2: ExprKind, a: Expr, b: Expr, c: Expr)
    requires IsBinaryKind(k1) && IsBinaryKind(k2) && ShouldPop(k2, k1)
    requires IsAtom(a.kind) && IsAtom(b.kind) && IsAtom(c.kind)
    ensures Resolve(Bin(k2, Bin(k1, a, b), c), Corrected) == Ok(Bin(k2, Bin(k1, a, b), c))
  {
    var ab := Bin(k1, a, b);
    var e := Bin(k2, ab, c);
    var flat := [a, ab, b, e, c];
    ArityCategories(k1);
    ArityCategories(k2);
    FlattenAtomLeft(k1, a, b, Corrected);
    assert Flatten(b, Corrected) == Ok([b]) && Flatten(c, Corrected) == Ok([c]);
    FlattenAllOne(c, Corrected);
    assert ChildrenOf(e)[1..] == [c];
    FlattenOperatorShape(e);
    assert [a, ab] + [b] + [e] + [c] == flat;
    RunOperandOperator(flat);
    RunTwoBinaryLeft(k1, k2, a, ab, b, e, c);
    ResolveOperator(e, Corrected, flat, [e]);
  }

  /** The same tree inside parentheses, as a nested grouping such as `((a + b + c))` is
      resolved a second time by rpn_expr: as written the grouping fails, corrected it
      comes back unchanged. */
  lemma {:induction false} NestedGrouping(k1: ExprKind, k2: ExprKind, a: Expr, b: Expr, c: Expr)
    requires IsBinaryKind(k1) && IsBinaryKind(k2) && ShouldPop(k2, k1)
    requires IsAtom(a.kind) && IsAtom(b.kind) && IsAtom(c.kind)
    ensures Resolve(ParenExpr(Bin(k2, Bin(k1, a, b), c)), AsWritten) == Err(OperandMissing)
    ensures Resolve(ParenExpr(Bin(k2, Bin(k1, a, b), c)), Corrected) == Ok(ParenExpr(Bin(k2, Bin(k1, a, b), c)))
  {
    var e := Bin(k2, Bin(k1, a, b), c);
    LeftNestedAsWritten(k1, k2, a, b, c);
    LeftNestedCorrected(k1, k2, a, b, c);
    assert [e][1..] == [];
    assert [e] + [] == [e];
    assert ResolveAll([e], AsWritten) == Err(OperandMissing);
    assert ResolveAll([], Corrected) == Ok([]);
    assert ResolveAll([e], Corrected) == Ok([e]);
  }

  /** `c ? t : f` over single tokens, in either reading: the middle operand is resolved
      inside parentheses and the ternary is rebuilt over the three operands. */
  lemma {:induction false} TernaryResolves(c: Expr, t: Expr, f: Expr, mode: Variant)
    requires OpCountOf(c.kind) == SingleToken && OpCountOf(t.kind) == SingleToken && OpCountOf(f.kind) == SingleToken
    ensures Resolve(TernaryExpr(c, t, f), mode) == Ok(TernaryExpr(c, ParenExpr(t), f))
  {
    var e := TernaryExpr(c, t, f);
    var m := ParenExpr(t);
    var e' := TernaryExpr(c, m, f);
    assert [t][1..] == [] && [t] + [] == [t];
    assert Resolve(t, mode) == Ok(t) && ResolveAll([], mode) == Ok([]);
    assert ResolveAll([t], mode) == Ok([t]);
    assert Resolve(m, mode) == Ok(m);
    assert Flatten(c, mode) == Ok([c]) && Flatten(f, mode) == Ok([f]);
    assert e.(payload := Children([c, m, f])) == e';
    var flat := [c, e', m, f];
    assert [c] + [e'] + [m] + [f] == flat;
    assert Flatten(e, mode) == Ok(flat);
    TernaryRun(c, e', m, f);
    ResolveOperator(e, mode, flat, [e']);
  }

  lemma {:induction false} TernaryRun(c: Expr, e: Expr, m: Expr, f: Expr)
    requires IsAtom(c.kind) && IsAtom(m.kind) && IsAtom(f.kind) && e == TernaryExpr(c, m, f)
    ensures OutputStack([c, e, m, f]) == Ok([e])
  {
    var flat := [c, e, m, f];
    RunOperand(flat, 0, [], []);
    assert [] + [c] == [c] && [] + [Ternary] == [Ternary];
    RunOperator(flat, 1, [], [c]);
    DrainPush(flat, 1, [], [c]);
    RunOperand(flat, 2, [Ternary], [c]);
    assert [c] + [m] == [c, m] && [c, m] + [f] == [c, m, f];
    RunOperand(flat, 3, [Ternary], [c, m]);
    RunEnd(flat, [Ternary], [c, m, f]);
    assert Apply(Ternary, [c, m, f]) == Ok([e]);
    FlushPop([Ternary], [c, m, f], [e]);
    assert [Ternary][..0] == [];
  }
}
