/** Precedence resolution of expressions (parser.h, rpn_traverse_tree, rpn_ast and
    rpn_expr). The parser builds every operator expression right-recursively, so
    `a + b - c` arrives as a + (b - c); resolution flattens such a tree into operands and
    operators in source order and rebuilds it with the shunting-yard algorithm, driven by
    the precedence and associativity tables. */
module Resolver {
  import opened Wrappers
  import opened Expressions
  import opened Variants

  datatype ResolveError =
    | OperandMissing   // an operator found fewer operands on the output stack than it takes
    | NoOperandCount   // operand_count has no entry for the category (it throws out_of_range)
    | NoResult         // the output stack ended empty

  /** Single tokens and groupings are operands to the resolver; everything else is an
      operator. */
  predicate IsAtom(k: ExprKind) {
    OpCountOf(k) == SingleToken || OpCountOf(k) == Grouping
  }

  lemma {:induction false} NonAtomIsOperator(k: ExprKind)
    ensures !IsAtom(k) <==> IsOperator(OpCountOf(k))
  {
  }

  /** The number of nodes of a tree, the measure the mutual recursion of flattening and
      resolution decreases. */
  function Size(e: Expr): (n: nat)
    ensures n >= 1
    decreases e
  {
    1 + (match e.payload case Children(cs) => SizeAll(cs) case _ => 0)
  }

  function SizeAll(cs: seq<Expr>): (n: nat)
    ensures forall i :: 0 <= i < |cs| ==> Size(cs[i]) <= n
    decreases cs
  {
    if cs == [] then 0 else Size(cs[0]) + SizeAll(cs[1..])
  }

  lemma {:induction false} SizeOfNode(e: Expr)
    ensures Size(e) == 1 + SizeAll(ChildrenOf(e))
  {
  }

  /** Every child is smaller than its parent, and the middle of three children is smaller
      than the three together by at least two nodes. */
  lemma {:induction false} SizeOfChildren(cs: seq<Expr>)
    ensures cs != [] ==> Size(cs[0]) <= SizeAll(cs) && SizeAll(cs[1..]) < SizeAll(cs)
    ensures |cs| == 3 ==> Size(cs[0]) + Size(cs[1]) + Size(cs[2]) == SizeAll(cs)
  {
    if |cs| == 3 {
      assert cs[1..][0] == cs[1] && cs[1..][1..] == cs[2..];
      assert cs[2..][0] == cs[2] && cs[2..][1..] == [];
      assert SizeAll(cs[2..]) == Size(cs[2]) + SizeAll([]);
      assert SizeAll(cs[1..]) == Size(cs[1]) + SizeAll(cs[2..]);
    }
  }

  /** Expression(PARENTHESIS, e). */
  function ParenExpr(e: Expr): (r: Expr)
    ensures Ok(r) == MakeUnaryExpr(Parenthesis, e)
  {
    Expr(Parenthesis, OpCountOf(Parenthesis), Children([e]))
  }

  lemma {:induction false} SizeOfParen(e: Expr)
    ensures Size(ParenExpr(e)) == 1 + Size(e)
  {
    assert [e][1..] == [];
    assert SizeAll([e]) == Size(e) + SizeAll([]);
  }

  predicate IsPostfix(k: ExprKind) {
    k.UnaryPostIncr? || k.UnaryPostDecr?
  }

  /** rpn_traverse_tree: the operands and operators of a tree in source order. As written,
      an operator other than a unary one contributes its first child unflattened, then
      itself, then its remaining children flattened; a unary operator contributes itself,
      then its child flattened; a ternary's middle child is first resolved inside
      parentheses, which makes it a single operand. The corrected reading also flattens
      the first child and puts a postfix operator after its operand. A node without the
      children its kind calls for (which no constructor builds) is handled like the
      well-formed case as far as its children go. */
  function Flatten(e: Expr, mode: Variant): (r: Result<seq<Expr>, ResolveError>)
    ensures r.Ok? ==> |r.value| >= 1
    ensures IsAtom(e.kind) ==> r == Ok([e])
    decreases Size(e), 0
  {
    var cs := ChildrenOf(e);
    SizeOfNode(e);
    SizeOfChildren(cs);
    if IsAtom(e.kind) then Ok([e])
    else if OpCountOf(e.kind) == TernaryOp && |cs| == 3 then
      SizeOfParen(cs[1]);
      var m :- Resolve(ParenExpr(cs[1]), mode);
      var left :- if mode == Corrected then Flatten(cs[0], mode) else Ok([cs[0]]);
      var right :- Flatten(cs[2], mode);
      Ok(left + [e.(payload := Children([cs[0], m, cs[2]]))] + [m] + right)
    else if OpCountOf(e.kind) == UnaryOp then
      var operand :- FlattenAll(cs, mode);
      if mode == Corrected && IsPostfix(e.kind) then Ok(operand + [e]) else Ok([e] + operand)
    else if cs == [] then Ok([e])
    else
      var left :- if mode == Corrected then Flatten(cs[0], mode) else Ok([cs[0]]);
      var right :- FlattenAll(cs[1..], mode);
      Ok(left + [e] + right)
  }

  function FlattenAll(cs: seq<Expr>, mode: Variant): (r: Result<seq<Expr>, ResolveError>)
    decreases SizeAll(cs), 1
  {
    SizeOfChildren(cs);
    if cs == [] then Ok([])
    else
      var first :- Flatten(cs[0], mode);
      var rest :- FlattenAll(cs[1..], mode);
      Ok(first + rest)
  }

  /** rpn_expr: a single token is returned unchanged; a grouping keeps its kind and has
      each of its children resolved; an operator tree is flattened and rebuilt by
      precedence. */
  function Resolve(e: Expr, mode: Variant): (r: Result<Expr, ResolveError>)
    ensures OpCountOf(e.kind) == SingleToken ==> r == Ok(e)
    ensures r.Ok? && OpCountOf(e.kind) == Grouping ==>
      r.value.kind == e.kind && r.value.gentype == e.gentype && |ChildrenOf(r.value)| == |ChildrenOf(e)|
    ensures OpCountOf(e.kind) == Grouping ==>
      (r.Ok? <==> forall i :: 0 <= i < |ChildrenOf(e)| ==> Resolve(ChildrenOf(e)[i], mode).Ok?)
    ensures r.Ok? && OpCountOf(e.kind) == Grouping ==>
      forall i :: 0 <= i < |ChildrenOf(e)| ==> ChildrenOf(r.value)[i] == Resolve(ChildrenOf(e)[i], mode).value
    decreases Size(e), 2
  {
    SizeOfNode(e);
    if OpCountOf(e.kind) == SingleToken then Ok(e)
    else if OpCountOf(e.kind) == Grouping then
      if e.payload.Children? then
        var cs :- ResolveAll(e.payload.exprs, mode);
        Ok(e.(payload := Children(cs)))
      else Ok(e)
    else
      var flat :- Flatten(e, mode);
      ShuntingYard(flat)
  }

  function ResolveAll(cs: seq<Expr>, mode: Variant): (r: Result<seq<Expr>, ResolveError>)
    ensures r.Ok? ==> |r.value| == |cs|
    ensures r.Ok? <==> forall i :: 0 <= i < |cs| ==> Resolve(cs[i], mode).Ok?
    ensures r.Ok? ==> forall i :: 0 <= i < |cs| ==> r.value[i] == Resolve(cs[i], mode).value
    decreases SizeAll(cs), 3
  {
    SizeOfChildren(cs);
    if cs == [] then Ok([])
    else
      var first :- Resolve(cs[0], mode);
      var rest :- ResolveAll(cs[1..], mode);
      Ok([first] + rest)
  }

  /** The comparison of rpn_ast: the operator on top of the stack is applied before the
      incoming one is pushed when it binds tighter, or as tight and to the left. */
  predicate ShouldPop(incoming: ExprKind, top: ExprKind) {
    Prec(incoming) < Prec(top) || (Prec(incoming) == Prec(top) && AssocOf(top) == Left)
  }

  /** Applying an operator: it takes as many operands as its category calls for off the
      top of the output stack and pushes the node built from them, whose children are
      those operands in the order they were pushed. */
  function Apply(k: ExprKind, out: seq<Expr>): (r: Result<seq<Expr>, ResolveError>)
    ensures r.Ok? <==> IsOperator(OpCountOf(k)) && OperandCount(OpCountOf(k)) <= |out|
    ensures !IsOperator(OpCountOf(k)) ==> r == Err(NoOperandCount)
    ensures IsOperator(OpCountOf(k)) && r.Err? ==> r.error == OperandMissing
    ensures r.Ok? ==>
      var n := OperandCount(OpCountOf(k));
      |r.value| == |out| - n + 1 && r.value[..|out| - n] == out[..|out| - n] &&
      r.value[|out| - n].kind == k && r.value[|out| - n].gentype == OpCountOf(k) &&
      ChildrenOf(r.value[|out| - n]) == out[|out| - n..]
  {
    if !IsOperator(OpCountOf(k)) then Err(NoOperandCount)
    else
      var n := OperandCount(OpCountOf(k));
      if |out| < n then Err(OperandMissing)
      else Ok(out[..|out| - n] + [Expr(k, OpCountOf(k), Children(out[|out| - n..]))])
  }

  /** The node Apply pushes is the one the operator constructor builds from the operands
      in the order they were popped, the top first. */
  lemma {:induction false} ApplyBuildsOperatorNode(k: ExprKind, out: seq<Expr>)
    requires Apply(k, out).Ok?
    ensures var n := OperandCount(OpCountOf(k));
      Ok(Apply(k, out).value[|out| - n]) == MakeOperatorExpr(k, Reverse(out[|out| - n..]))
  {
    var n := OperandCount(OpCountOf(k));
    var ops := out[|out| - n..];
    var rev := Reverse(ops);
    assert Apply(k, out).value[|out| - n] == Expr(k, OpCountOf(k), Children(ops));
    ArityCategories(k);
    if n == 1 {
      assert ops == [rev[0]];
    } else if n == 2 {
      assert ops == [rev[1], rev[0]];
    } else {
      assert ops == [rev[2], rev[1], rev[0]];
    }
  }

  /** The final loop of rpn_ast: every operator left is applied, the top one first. */
  function Flush(ops: seq<ExprKind>, out: seq<Expr>): (r: Result<seq<Expr>, ResolveError>)
    decreases |ops|
  {
    if ops == [] then Ok(out)
    else
      var out' :- Apply(ops[|ops| - 1], out);
      Flush(ops[..|ops| - 1], out')
  }

  /** The main loop of rpn_ast from position i, with the operator and output stacks given
      (their tops at the end): an operand goes to the output stack, an operator first
      applies the operators that should pop before it. */
  function Run(exprs: seq<Expr>, i: nat, ops: seq<ExprKind>, out: seq<Expr>): (r: Result<seq<Expr>, ResolveError>)
    requires i <= |exprs|
    decreases |exprs| - i, 1, 0
  {
    if i == |exprs| then Flush(ops, out)
    else if IsAtom(exprs[i].kind) then Run(exprs, i + 1, ops, out + [exprs[i]])
    else Drain(exprs, i, ops, out)
  }

  function Drain(exprs: seq<Expr>, i: nat, ops: seq<ExprKind>, out: seq<Expr>): (r: Result<seq<Expr>, ResolveError>)
    requires i < |exprs| && !IsAtom(exprs[i].kind)
    decreases |exprs| - i, 0, |ops|
  {
    if ops != [] && ShouldPop(exprs[i].kind, ops[|ops| - 1]) then
      var out' :- Apply(ops[|ops| - 1], out);
      Drain(exprs, i, ops[..|ops| - 1], out')
    else
      Run(exprs, i + 1, ops + [exprs[i].kind], out)
  }

  /** The output stack rpn_ast ends with. */
  function OutputStack(exprs: seq<Expr>): Result<seq<Expr>, ResolveError>
  {
    Run(exprs, 0, [], [])
  }

  /** rpn_ast: the top of the final output stack. */
  function ShuntingYard(exprs: seq<Expr>): (r: Result<Expr, ResolveError>)
    ensures r.Ok? <==> OutputStack(exprs).Ok? && OutputStack(exprs).value != []
    ensures r.Ok? ==> r.value == OutputStack(exprs).value[|OutputStack(exprs).value| - 1]
  {
    var out :- OutputStack(exprs);
    if out == [] then Err(NoResult) else Ok(out[|out| - 1])
  }

  lemma {:induction false} ReverseCons<T>(x: T, s: seq<T>)
    ensures Reverse([x] + s) == Reverse(s) + [x]
  {
    assert ([x] + s)[1..] == s;
  }

  /** One more entry popped: the popped part grows by the entry below it, which was the
      top of what was left. */
  lemma {:induction false} PopOneMore<T>(s: seq<T>, j: nat)
    requires j < |s|
    ensures Reverse(s[|s| - (j + 1)..]) == Reverse(s[|s| - j..]) + [s[..|s| - j][|s| - j - 1]]
    ensures s[..|s| - j][..|s| - j - 1] == s[..|s| - (j + 1)]
  {
    var top := s[|s| - (j + 1)];
    assert s[|s| - (j + 1)..] == [top] + s[|s| - j..];
    ReverseCons(top, s[|s| - j..]);
  }

  /** Popping n entries off a stack whose top is at the end, one at a time, the top
      first, as the operand loop of rpn_ast and the reduce loop of feed do; it fails when
      the stack runs out. */
  method PopTop<T>(s: seq<T>, n: nat) returns (ok: bool, popped: seq<T>, rest: seq<T>)
    ensures ok <==> n <= |s|
    ensures ok ==> popped == Reverse(s[|s| - n..]) && rest == s[..|s| - n]
  {
    popped, rest := [], s;
    var j := 0;
    while j < n
      invariant 0 <= j <= n && j <= |s|
      invariant rest == s[..|s| - j]
      invariant popped == Reverse(s[|s| - j..])
    {
      if rest == [] {
        return false, popped, rest;
      }
      PopOneMore(s, j);
      popped := popped + [rest[|rest| - 1]];
      rest := rest[..|rest| - 1];
      j := j + 1;
    }
    ok := true;
  }

  /** Popping one operator: operand_count operands come off the output stack and the node
      the operator constructor builds from them is pushed. */
  method PopOperator(k: ExprKind, out: seq<Expr>) returns (r: Result<seq<Expr>, ResolveError>)
    ensures r == Apply(k, out)
  {
    if !IsOperator(OpCountOf(k)) {
      return Err(NoOperandCount);
    }
    var n := OperandCount(OpCountOf(k));
    var ok, operands, rest := PopTop(out, n);
    if !ok {
      return Err(OperandMissing);
    }
    ghost var built := Expr(k, OpCountOf(k), Children(out[|out| - n..]));
    assert Apply(k, out) == Ok(rest + [built]);
    assert (rest + [built])[|out| - n] == built;
    ApplyBuildsOperatorNode(k, out);
    var node := MakeOperatorExpr(k, operands);
    assert node == Ok(built);
    r := Ok(rest + [node.value]);
  }

  /** rpn_ast, with the operator and output stacks as sequences whose tops are at the
      end. */
  method RpnAst(exprs: seq<Expr>) returns (r: Result<Expr, ResolveError>)
    ensures r == ShuntingYard(exprs)
  {
    var ops: seq<ExprKind> := [];
    var out: seq<Expr> := [];
    var i := 0;
    while i < |exprs|
      invariant 0 <= i <= |exprs|
      invariant Run(exprs, i, ops, out) == OutputStack(exprs)
    {
      var it := exprs[i];
      if IsAtom(it.kind) {
        out := out + [it];
      } else {
        while ops != [] && ShouldPop(it.kind, ops[|ops| - 1])
          invariant Drain(exprs, i, ops, out) == OutputStack(exprs)
          decreases |ops|
        {
          var next := PopOperator(ops[|ops| - 1], out);
          if next.Err? {
            return Err(next.error);
          }
          out := next.value;
          ops := ops[..|ops| - 1];
        }
        ops := ops + [it.kind];
      }
      i := i + 1;
    }
    while ops != []
      invariant Flush(ops, out) == OutputStack(exprs)
      decreases |ops|
    {
      var next := PopOperator(ops[|ops| - 1], out);
      if next.Err? {
        return Err(next.error);
      }
      out := next.value;
      ops := ops[..|ops| - 1];
    }
    if out == [] {
      return Err(NoResult);
    }
    r := Ok(out[|out| - 1]);
  }

  /** The operands of a tree in source order: an operand is its own only leaf; an
      operator's leaves are those of its children. */
  function Leaves(e: Expr): seq<Expr>
    decreases e
  {
    if IsAtom(e.kind) then [e]
    else match e.payload
      case Children(cs) => LeavesAll(cs)
      case _ => []
  }

  function LeavesAll(cs: seq<Expr>): seq<Expr>
    decreases cs
  {
    if cs == [] then [] else Leaves(cs[0]) + LeavesAll(cs[1..])
  }

  /** The operands of a flattened list, in order. */
  function AtomsOf(s: seq<Expr>): (r: seq<Expr>)
    ensures |r| <= |s|
  {
    if s == [] then [] else (if IsAtom(s[0].kind) then [s[0]] else []) + AtomsOf(s[1..])
  }

  lemma {:induction false} LeavesAllAppend(a: seq<Expr>, b: seq<Expr>)
    ensures LeavesAll(a + b) == LeavesAll(a) + LeavesAll(b)
    decreases |a|
  {
    if a == [] {
      assert a + b == b;
    } else {
      assert (a + b)[0] == a[0] && (a + b)[1..] == a[1..] + b;
      LeavesAllAppend(a[1..], b);
    }
  }

  lemma {:induction false} AtomsOfAppend(a: seq<Expr>, b: seq<Expr>)
    ensures AtomsOf(a + b) == AtomsOf(a) + AtomsOf(b)
    decreases |a|
  {
    if a == [] {
      assert a + b == b;
    } else {
      var head := if IsAtom(a[0].kind) then [a[0]] else [];
      assert (a + b)[0] == a[0] && (a + b)[1..] == a[1..] + b;
      assert AtomsOf(a + b) == head + AtomsOf(a[1..] + b);
      AtomsOfAppend(a[1..], b);
    }
  }

  lemma {:induction false} LeavesOfOne(e: Expr)
    ensures LeavesAll([e]) == Leaves(e)
    ensures AtomsOf([e]) == if IsAtom(e.kind) then [e] else []
  {
    assert [e][1..] == [];
  }

  lemma {:induction false} LeavesOfOperator(e: Expr)
    requires !IsAtom(e.kind)
    ensures Leaves(e) == LeavesAll(ChildrenOf(e))
  {
  }

  /** Applying an operator keeps the leaves of the output stack, in order. */
  lemma {:induction false} ApplyKeepsLeaves(k: ExprKind, out: seq<Expr>)
    requires Apply(k, out).Ok?
    ensures LeavesAll(Apply(k, out).value) == LeavesAll(out)
  {
    var n := OperandCount(OpCountOf(k));
    var m := |out| - n;
    var o := Apply(k, out).value;
    assert o == out[..m] + [o[m]];
    assert out == out[..m] + out[m..];
    LeavesAllAppend(out[..m], [o[m]]);
    LeavesAllAppend(out[..m], out[m..]);
    LeavesOfOne(o[m]);
    LeavesOfOperator(o[m]);
  }

  lemma {:induction false} FlushKeepsLeaves(ops: seq<ExprKind>, out: seq<Expr>)
    ensures Flush(ops, out).Ok? ==> LeavesAll(Flush(ops, out).value) == LeavesAll(out)
    decreases |ops|
  {
    if ops != [] && Apply(ops[|ops| - 1], out).Ok? {
      ApplyKeepsLeaves(ops[|ops| - 1], out);
      FlushKeepsLeaves(ops[..|ops| - 1], Apply(ops[|ops| - 1], out).value);
    }
  }

  lemma {:induction false} RunKeepsLeaves(exprs: seq<Expr>, i: nat, ops: seq<ExprKind>, out: seq<Expr>)
    requires i <= |exprs|
    ensures Run(exprs, i, ops, out).Ok? ==>
      LeavesAll(Run(exprs, i, ops, out).value) == LeavesAll(out) + AtomsOf(exprs[i..])
    decreases |exprs| - i, 1, 0
  {
    if i == |exprs| {
      FlushKeepsLeaves(ops, out);
    } else {
      assert exprs[i..] == [exprs[i]] + exprs[i + 1..];
      AtomsOfAppend([exprs[i]], exprs[i + 1..]);
      LeavesOfOne(exprs[i]);
      if IsAtom(exprs[i].kind) {
        RunKeepsLeaves(exprs, i + 1, ops, out + [exprs[i]]);
        LeavesAllAppend(out, [exprs[i]]);
      } else {
        DrainKeepsLeaves(exprs, i, ops, out);
      }
    }
  }

  lemma {:induction false} DrainKeepsLeaves(exprs: seq<Expr>, i: nat, ops: seq<ExprKind>, out: seq<Expr>)
    requires i < |exprs| && !IsAtom(exprs[i].kind)
    ensures Drain(exprs, i, ops, out).Ok? ==>
      LeavesAll(Drain(exprs, i, ops, out).value) == LeavesAll(out) + AtomsOf(exprs[i + 1..])
    decreases |exprs| - i, 0, |ops|
  {
    if ops != [] && ShouldPop(exprs[i].kind, ops[|ops| - 1]) {
      if Apply(ops[|ops| - 1], out).Ok? {
        ApplyKeepsLeaves(ops[|ops| - 1], out);
        DrainKeepsLeaves(exprs, i, ops[..|ops| - 1], Apply(ops[|ops| - 1], out).value);
      }
    } else {
      RunKeepsLeaves(exprs, i + 1, ops + [exprs[i].kind], out);
    }
  }

  /** Whatever rpn_ast rebuilds, the operands of the list end up on the output stack in
      the order they came, and the tree it returns holds the last of them. */
  lemma {:induction false} ShuntingYardKeepsOperands(exprs: seq<Expr>)
    ensures OutputStack(exprs).Ok? ==> LeavesAll(OutputStack(exprs).value) == AtomsOf(exprs)
    ensures ShuntingYard(exprs).Ok? ==>
      var atoms := AtomsOf(exprs);
      var l := Leaves(ShuntingYard(exprs).value);
      |l| <= |atoms| && atoms[|atoms| - |l|..] == l
  {
    RunKeepsLeaves(exprs, 0, [], []);
    assert exprs[0..] == exprs;
    if ShuntingYard(exprs).Ok? {
      var o := OutputStack(exprs).value;
      assert o == o[..|o| - 1] + [o[|o| - 1]];
      LeavesAllAppend(o[..|o| - 1], [o[|o| - 1]]);
      LeavesOfOne(o[|o| - 1]);
    }
  }

  /** A binary or unary node as the constructors build it. */
  function Bin(k: ExprKind, lhs: Expr, rhs: Expr): (e: Expr)
    requires IsBinaryKind(k)
    ensures Ok(e) == MakeBinaryExpr(k, lhs, rhs)
  {
    Expr(k, OpCountOf(k), Children([lhs, rhs]))
  }

  function Un(k: ExprKind, operand: Expr): (e: Expr)
    requires IsUnaryKind(k)
    ensures Ok(e) == MakeUnaryExpr(k, operand)
  {
    Expr(k, OpCountOf(k), Children([operand]))
  }

  lemma {:induction false} ApplyBinary(k: ExprKind, pre: seq<Expr>, x: Expr, y: Expr)
    requires IsBinaryKind(k)
    ensures Apply(k, pre + [x, y]) == Ok(pre + [Bin(k, x, y)])
  {
    var out := pre + [x, y];
    ArityCategories(k);
    var r := Apply(k, out).value;
    assert out[|out| - 2..] == [x, y];
    assert r[..|pre|] == pre;
    assert r[|pre|] == Bin(k, x, y);
    assert r == pre + [Bin(k, x, y)];
  }

  lemma {:induction false} ApplyUnary(k: ExprKind, pre: seq<Expr>, x: Expr)
    requires IsUnaryKind(k)
    ensures Apply(k, pre + [x]) == Ok(pre + [Un(k, x)])
  {
    var out := pre + [x];
    ArityCategories(k);
    var r := Apply(k, out).value;
    assert out[|out| - 1..] == [x];
    assert r[..|pre|] == pre;
    assert r[|pre|] == Un(k, x);
    assert r == pre + [Un(k, x)];
  }

  lemma {:induction false} ApplyUnaryOnly(k: ExprKind, x: Expr)
    requires IsUnaryKind(k)
    ensures Apply(k, [x]) == Ok([Un(k, x)])
  {
    ApplyUnary(k, [], x);
    assert [] + [x] == [x] && [] + [Un(k, x)] == [Un(k, x)];
  }

  lemma {:induction false} FlattenAllOne(x: Expr, mode: Variant)
    ensures FlattenAll([x], mode) == Flatten(x, mode)
  {
    assert [x][1..] == [];
    if Flatten(x, mode).Ok? {
      assert Flatten(x, mode).value + [] == Flatten(x, mode).value;
    }
  }

  /** A binary node whose left operand is a single operand flattens to that operand,
      itself, and its right operand flattened. */
  lemma {:induction false} FlattenAtomLeft(k: ExprKind, x: Expr, y: Expr, mode: Variant)
    requires IsBinaryKind(k) && IsAtom(x.kind) && Flatten(y, mode).Ok?
    ensures Flatten(Bin(k, x, y), mode) == Ok([x, Bin(k, x, y)] + Flatten(y, mode).value)
  {
    var e := Bin(k, x, y);
    var fy := Flatten(y, mode).value;
    ArityCategories(k);
    assert ChildrenOf(e)[1..] == [y];
    FlattenAllOne(y, mode);
    assert Flatten(x, mode) == Ok([x]);
    assert [x] + [e] + fy == [x, e] + fy;
  }

  /** An operator tree is resolved by running rpn_ast on its flattening. */
  lemma {:induction false} ResolveOperator(e: Expr, mode: Variant, flat: seq<Expr>, out: seq<Expr>)
    requires !IsAtom(e.kind) && Flatten(e, mode) == Ok(flat) && OutputStack(flat) == Ok(out) && out != []
    ensures Resolve(e, mode) == Ok(out[|out| - 1])
  {
  }

  lemma {:induction false} FlattenChain(k1: ExprKind, k2: ExprKind, a: Expr, b: Expr, c: Expr, mode: Variant)
    requires IsBinaryKind(k1) && IsBinaryKind(k2) && IsAtom(a.kind) && IsAtom(b.kind) && IsAtom(c.kind)
    ensures Flatten(Bin(k1, a, Bin(k2, b, c)), mode) == Ok([a, Bin(k1, a, Bin(k2, b, c)), b, Bin(k2, b, c), c])
  {
    var inner := Bin(k2, b, c);
    var e := Bin(k1, a, inner);
    FlattenAtomLeft(k2, b, c, mode);
    FlattenAtomLeft(k1, a, inner, mode);
    assert [b, inner] + [c] == [b, inner, c];
    assert [a, e] + [b, inner, c] == [a, e, b, inner, c];
  }

  lemma {:induction false} RunOperand(exprs: seq<Expr>, i: nat, ops: seq<ExprKind>, out: seq<Expr>)
    requires i < |exprs| && IsAtom(exprs[i].kind)
    ensures Run(exprs, i, ops, out) == Run(exprs, i + 1, ops, out + [exprs[i]])
  {
  }

  lemma {:induction false} RunOperator(exprs: seq<Expr>, i: nat, ops: seq<ExprKind>, out: seq<Expr>)
    requires i < |exprs| && !IsAtom(exprs[i].kind)
    ensures Run(exprs, i, ops, out) == Drain(exprs, i, ops, out)
  {
  }

  lemma {:induction false} RunEnd(exprs: seq<Expr>, ops: seq<ExprKind>, out: seq<Expr>)
    ensures Run(exprs, |exprs|, ops, out) == Flush(ops, out)
  {
  }

  lemma {:induction false} DrainPop(exprs: seq<Expr>, i: nat, ops: seq<ExprKind>, out: seq<Expr>, out': seq<Expr>)
    requires i < |exprs| && !IsAtom(exprs[i].kind)
    requires ops != [] && ShouldPop(exprs[i].kind, ops[|ops| - 1]) && Apply(ops[|ops| - 1], out) == Ok(out')
    ensures Drain(exprs, i, ops, out) == Drain(exprs, i, ops[..|ops| - 1], out')
  {
  }

  lemma {:induction false} DrainPush(exprs: seq<Expr>, i: nat, ops: seq<ExprKind>, out: seq<Expr>)
    requires i < |exprs| && !IsAtom(exprs[i].kind)
    requires ops == [] || !ShouldPop(exprs[i].kind, ops[|ops| - 1])
    ensures Drain(exprs, i, ops, out) == Run(exprs, i + 1, ops + [exprs[i].kind], out)
  {
  }

  lemma {:induction false} FlushPop(ops: seq<ExprKind>, out: seq<Expr>, out': seq<Expr>)
    requires ops != [] && Apply(ops[|ops| - 1], out) == Ok(out')
    ensures Flush(ops, out) == Flush(ops[..|ops| - 1], out')
  {
  }

  lemma {:induction false} RunTwoBinaryStart(k1: ExprKind, k2: ExprKind, a: Expr, e: Expr, b: Expr, inner: Expr, c: Expr)
    requires IsBinaryKind(k1) && IsBinaryKind(k2) && IsAtom(a.kind) && IsAtom(b.kind) && IsAtom(c.kind)
    requires e.kind == k1 && inner.kind == k2
    ensures OutputStack([a, e, b, inner, c]) == Drain([a, e, b, inner, c], 3, [k1], [a, b])
  {
    RunOperandOperator([a, e, b, inner, c]);
  }

  /** An operand, an operator and an operand read from the start leave the operator on
      the stack and the two operands on the output stack when the next operator comes. */
  lemma {:induction false} RunOperandOperator(exprs: seq<Expr>)
    requires |exprs| >= 4 && IsAtom(exprs[0].kind) && !IsAtom(exprs[1].kind) && IsAtom(exprs[2].kind) && !IsAtom(exprs[3].kind)
    ensures OutputStack(exprs) == Drain(exprs, 3, [exprs[1].kind], [exprs[0], exprs[2]])
  {
    var a, k, b := exprs[0], exprs[1].kind, exprs[2];
    assert [] + [a] == [a] && [a] + [b] == [a, b] && [] + [k] == [k];
    RunOperand(exprs, 0, [], []);
    RunOperator(exprs, 1, [], [a]);
    DrainPush(exprs, 1, [], [a]);
    RunOperand(exprs, 2, [k], [a]);
    RunOperator(exprs, 3, [k], [a, b]);
  }

  /** The second operator pops the first: the first is applied to the two operands and the
      second takes its place on the stack. */
  lemma {:induction false} RunTwoBinaryLeftPop(k1: ExprKind, k2: ExprKind, a: Expr, e: Expr, b: Expr, inner: Expr, c: Expr)
    requires IsBinaryKind(k1) && IsBinaryKind(k2) && IsAtom(a.kind) && IsAtom(b.kind) && IsAtom(c.kind)
    requires e.kind == k1 && inner.kind == k2 && ShouldPop(k2, k1)
    ensures Drain([a, e, b, inner, c], 3, [k1], [a, b]) == Run([a, e, b, inner, c], 4, [k2], [Bin(k1, a, b)])
  {
    var flat := [a, e, b, inner, c];
    var ab := Bin(k1, a, b);
    ApplyBinary(k1, [], a, b);
    assert [] + [a, b] == [a, b] && [] + [ab] == [ab];
    assert Apply(k1, [a, b]) == Ok([ab]);
    DrainPop(flat, 3, [k1], [a, b], [ab]);
    assert [k1][..0] == [];
    assert Drain(flat, 3, [k1], [a, b]) == Drain(flat, 3, [], [ab]);
    DrainPush(flat, 3, [], [ab]);
    assert [] + [k2] == [k2];
  }

  /** The last operand goes to the output stack and the flush applies the second operator. */
  lemma {:induction false} RunTwoBinaryLeftEnd(k2: ExprKind, flat: seq<Expr>, ab: Expr, c: Expr)
    requires IsBinaryKind(k2) && |flat| == 5 && flat[4] == c && IsAtom(c.kind)
    ensures Run(flat, 4, [k2], [ab]) == Ok([Bin(k2, ab, c)])
  {
    RunOperand(flat, 4, [k2], [ab]);
    assert [ab] + [c] == [ab, c];
    assert Run(flat, 4, [k2], [ab]) == Run(flat, 5, [k2], [ab, c]);
    RunEnd(flat, [k2], [ab, c]);
    ApplyBinary(k2, [], ab, c);
    assert [] + [ab, c] == [ab, c] && [] + [Bin(k2, ab, c)] == [Bin(k2, ab, c)];
    FlushPop([k2], [ab, c], [Bin(k2, ab, c)]);
    assert [k2][..0] == [];
  }

  lemma {:induction false} RunTwoBinaryLeft(k1: ExprKind, k2: ExprKind, a: Expr, e: Expr, b: Expr, inner: Expr, c: Expr)
    requires IsBinaryKind(k1) && IsBinaryKind(k2) && IsAtom(a.kind) && IsAtom(b.kind) && IsAtom(c.kind)
    requires e.kind == k1 && inner.kind == k2 && ShouldPop(k2, k1)
    ensures Drain([a, e, b, inner, c], 3, [k1], [a, b]) == Ok([Bin(k2, Bin(k1, a, b), c)])
  {
    RunTwoBinaryLeftPop(k1, k2, a, e, b, inner, c);
    RunTwoBinaryLeftEnd(k2, [a, e, b, inner, c], Bin(k1, a, b), c);
  }

  lemma {:induction false} RunTwoBinaryRight(k1: ExprKind, k2: ExprKind, a: Expr, e: Expr, b: Expr, inner: Expr, c: Expr)
    requires IsBinaryKind(k1) && IsBinaryKind(k2) && IsAtom(a.kind) && IsAtom(b.kind) && IsAtom(c.kind)
    requires e.kind == k1 && inner.kind == k2 && !ShouldPop(k2, k1)
    ensures Drain([a, e, b, inner, c], 3, [k1], [a, b]) == Ok([Bin(k1, a, Bin(k2, b, c))])
  {
    var flat := [a, e, b, inner, c];
    var bc := Bin(k2, b, c);
    ApplyBinary(k2, [a], b, c);
    ApplyBinary(k1, [], a, bc);
    assert [k1] + [k2] == [k1, k2] && [a, b] + [c] == [a, b, c];
    assert [k1, k2][..1] == [k1] && [k1][..0] == [];
    assert [a] + [b, c] == [a, b, c] && [a] + [bc] == [a, bc];
    assert [] + [a, bc] == [a, bc] && [] + [Bin(k1, a, bc)] == [Bin(k1, a, bc)];
    DrainPush(flat, 3, [k1], [a, b]);
    RunOperand(flat, 4, [k1, k2], [a, b]);
    RunEnd(flat, [k1, k2], [a, b, c]);
    FlushPop([k1, k2], [a, b, c], [a, bc]);
    FlushPop([k1], [a, bc], [Bin(k1, a, bc)]);
  }

  /** Two binary operators in a row, as the parser builds them (k1 over a and k2 over b
      and c): the first is applied first exactly when the second does not bind tighter and
      is not right-associative at the same precedence. */
  lemma {:induction false} TwoOperators(k1: ExprKind, k2: ExprKind, a: Expr, b: Expr, c: Expr, mode: Variant)
    requires IsBinaryKind(k1) && IsBinaryKind(k2) && IsAtom(a.kind) && IsAtom(b.kind) && IsAtom(c.kind)
    ensures Resolve(Bin(k1, a, Bin(k2, b, c)), mode) ==
      if ShouldPop(k2, k1) then Ok(Bin(k2, Bin(k1, a, b), c)) else Ok(Bin(k1, a, Bin(k2, b, c)))
  {
    var inner := Bin(k2, b, c);
    var e := Bin(k1, a, inner);
    var flat := [a, e, b, inner, c];
    FlattenChain(k1, k2, a, b, c, mode);
    RunTwoBinaryStart(k1, k2, a, e, b, inner, c);
    ArityCategories(k1);
    if ShouldPop(k2, k1) {
      RunTwoBinaryLeft(k1, k2, a, e, b, inner, c);
      ResolveOperator(e, mode, flat, [Bin(k2, Bin(k1, a, b), c)]);
    } else {
      RunTwoBinaryRight(k1, k2, a, e, b, inner, c);
      ResolveOperator(e, mode, flat, [e]);
    }
  }

  /** `a + b - c` arrives as a + (b - c) and comes out as (a + b) - c; `a && b || c` comes
      out as (a && b) || c. */
  lemma {:induction false} PrecedenceRegroups(a: Expr, b: Expr, c: Expr, mode: Variant)
    requires IsAtom(a.kind) && IsAtom(b.kind) && IsAtom(c.kind)
    ensures Resolve(Bin(BinPlus, a, Bin(BinMinus, b, c)), mode) == Ok(Bin(BinMinus, Bin(BinPlus, a, b), c))
    ensures Resolve(Bin(BinAnd, a, Bin(BinOr, b, c)), mode) == Ok(Bin(BinOr, Bin(BinAnd, a, b), c))
  {
    assert ShouldPop(BinMinus, BinPlus) && ShouldPop(BinOr, BinAnd);
    TwoOperators(BinPlus, BinMinus, a, b, c, mode);
    TwoOperators(BinAnd, BinOr, a, b, c, mode);
  }

  /** `a = b = c` (right-associative) and `a || b && c` keep their shape. */
  lemma {:induction false} PrecedenceKeeps(a: Expr, b: Expr, c: Expr, mode: Variant)
    requires IsAtom(a.kind) && IsAtom(b.kind) && IsAtom(c.kind)
    ensures Resolve(Bin(BinEquals, a, Bin(BinEquals, b, c)), mode) == Ok(Bin(BinEquals, a, Bin(BinEquals, b, c)))
    ensures Resolve(Bin(BinOr, a, Bin(BinAnd, b, c)), mode) == Ok(Bin(BinOr, a, Bin(BinAnd, b, c)))
  {
    assert !ShouldPop(BinEquals, BinEquals) && !ShouldPop(BinAnd, BinOr);
    TwoOperators(BinEquals, BinEquals, a, b, c, mode);
    TwoOperators(BinOr, BinAnd, a, b, c, mode);
  }

  lemma {:induction false} FlattenPrefix(a: Expr, b: Expr, mode: Variant)
    requires IsAtom(a.kind) && IsAtom(b.kind)
    ensures Flatten(Un(UnaryMinus, Bin(BinPlus, a, b)), mode)
      == Ok([Un(UnaryMinus, Bin(BinPlus, a, b)), a, Bin(BinPlus, a, b), b])
  {
    var sum := Bin(BinPlus, a, b);
    var e := Un(UnaryMinus, sum);
    FlattenAtomLeft(BinPlus, a, b, mode);
    assert [a, sum] + [b] == [a, sum, b];
    assert Flatten(sum, mode) == Ok([a, sum, b]);
    FlattenPrefixOperator(UnaryMinus, sum, mode);
    assert [e] + [a, sum, b] == [e, a, sum, b];
  }

  /** A prefix operator node flattens to itself followed by its operand flattened. */
  lemma {:induction false} FlattenPrefixOperator(k: ExprKind, x: Expr, mode: Variant)
    requires IsUnaryKind(k) && !IsPostfix(k) && Flatten(x, mode).Ok?
    ensures Flatten(Un(k, x), mode) == Ok([Un(k, x)] + Flatten(x, mode).value)
  {
    var e := Un(k, x);
    ArityCategories(k);
    assert ChildrenOf(e) == [x];
    FlattenAllOne(x, mode);
  }

  lemma {:induction false} RunPrefixStart(a: Expr, b: Expr, e: Expr, sum: Expr)
    requires IsAtom(a.kind) && IsAtom(b.kind) && e.kind == UnaryMinus && sum.kind == BinPlus
    ensures OutputStack([e, a, sum, b]) == Drain([e, a, sum, b], 2, [UnaryMinus], [a])
  {
    var flat := [e, a, sum, b];
    assert [] + [UnaryMinus] == [UnaryMinus] && [] + [a] == [a];
    RunOperator(flat, 0, [], []);
    DrainPush(flat, 0, [], []);
    RunOperand(flat, 1, [UnaryMinus], []);
    RunOperator(flat, 2, [UnaryMinus], [a]);
  }

  /** The one operator on the stack pops before the incoming one and leaves the stack empty. */
  lemma {:induction false} DrainPopOnly(exprs: seq<Expr>, i: nat, k: ExprKind, x: Expr, y: Expr)
    requires i < |exprs| && !IsAtom(exprs[i].kind) && ShouldPop(exprs[i].kind, k) && Apply(k, [x]) == Ok([y])
    ensures Drain(exprs, i, [k], [x]) == Drain(exprs, i, [], [y])
  {
    DrainPop(exprs, i, [k], [x], [y]);
    assert [k][..0] == [];
  }

  /** A unary operator alone on the stack pops before an incoming operator that binds
      less tightly, which is then pushed. */
  lemma {:induction false} DrainUnaryThenPush(exprs: seq<Expr>, i: nat, k: ExprKind, x: Expr)
    requires i < |exprs| && !IsAtom(exprs[i].kind) && IsUnaryKind(k) && ShouldPop(exprs[i].kind, k)
    ensures Drain(exprs, i, [k], [x]) == Run(exprs, i + 1, [exprs[i].kind], [Un(k, x)])
  {
    ApplyUnaryOnly(k, x);
    DrainPopOnly(exprs, i, k, x, Un(k, x));
    assert [] + [exprs[i].kind] == [exprs[i].kind];
    DrainPush(exprs, i, [], [Un(k, x)]);
  }

  lemma {:induction false} RunPrefixEnd(a: Expr, b: Expr, e: Expr, sum: Expr)
    requires IsAtom(a.kind) && IsAtom(b.kind) && e.kind == UnaryMinus && sum.kind == BinPlus
    ensures Drain([e, a, sum, b], 2, [UnaryMinus], [a]) == Ok([Bin(BinPlus, Un(UnaryMinus, a), b)])
  {
    var flat := [e, a, sum, b];
    assert ShouldPop(flat[2].kind, UnaryMinus);
    DrainUnaryThenPush(flat, 2, UnaryMinus, a);
    RunLastOperand(flat, BinPlus, Un(UnaryMinus, a));
  }

  /** A binary operator alone on the stack with its left operand on the output stack,
      and one operand left to read: the result is that operator over the two. */
  lemma {:induction false} RunLastOperand(exprs: seq<Expr>, k: ExprKind, x: Expr)
    requires |exprs| > 0 && IsAtom(exprs[|exprs| - 1].kind) && IsBinaryKind(k)
    ensures Run(exprs, |exprs| - 1, [k], [x]) == Ok([Bin(k, x, exprs[|exprs| - 1])])
  {
    var y := exprs[|exprs| - 1];
    var r := Bin(k, x, y);
    RunOperand(exprs, |exprs| - 1, [k], [x]);
    assert [x] + [y] == [x, y];
    RunEnd(exprs, [k], [x, y]);
    ApplyBinary(k, [], x, y);
    assert [] + [x, y] == [x, y] && [] + [r] == [r] && [k][..0] == [];
    FlushPop([k], [x, y], [r]);
  }

  /** `-a + b` arrives as -(a + b) and comes out as (-a) + b: a prefix operator binds
      tighter than any binary one. */
  lemma {:induction false} PrefixBindsTighter(a: Expr, b: Expr, mode: Variant)
    requires IsAtom(a.kind) && IsAtom(b.kind)
    ensures Resolve(Un(UnaryMinus, Bin(BinPlus, a, b)), mode) == Ok(Bin(BinPlus, Un(UnaryMinus, a), b))
  {
    var sum := Bin(BinPlus, a, b);
    var e := Un(UnaryMinus, sum);
    var flat := [e, a, sum, b];
    FlattenPrefix(a, b, mode);
    RunPrefixStart(a, b, e, sum);
    RunPrefixEnd(a, b, e, sum);
    ResolveOperator(e, mode, flat, [Bin(BinPlus, Un(UnaryMinus, a), b)]);
  }

  /** A tree with no ternary node among its operators (an operand, a grouping included,
      is not looked into, as flattening does not look into it): its flattening does not
      resolve a middle operand. */
  predicate TernaryFree(e: Expr)
    decreases e
  {
    OpCountOf(e.kind) != TernaryOp &&
    (IsAtom(e.kind) ||
     match e.payload
     case Children(cs) => TernaryFreeAll(cs)
     case _ => true)
  }

  predicate TernaryFreeAll(cs: seq<Expr>)
    decreases cs
  {
    cs == [] || (TernaryFree(cs[0]) && TernaryFreeAll(cs[1..]))
  }

  /** The operands of a flattened list around an operator are those on either side. */
  lemma {:induction false} AtomsAround(left: seq<Expr>, e: Expr, right: seq<Expr>)
    requires !IsAtom(e.kind)
    ensures AtomsOf(left + [e] + right) == AtomsOf(left) + AtomsOf(right)
  {
    LeavesOfOne(e);
    AtomsOfAppend(left, [e]);
    AtomsOfAppend(left + [e], right);
  }

  lemma {:induction false} FlattenUnaryShape(e: Expr)
    requires OpCountOf(e.kind) == UnaryOp && FlattenAll(ChildrenOf(e), Corrected).Ok?
    ensures var operand := FlattenAll(ChildrenOf(e), Corrected).value;
      Flatten(e, Corrected) == Ok(if IsPostfix(e.kind) then operand + [e] + [] else [] + [e] + operand)
  {
    var operand := FlattenAll(ChildrenOf(e), Corrected).value;
    assert operand + [e] + [] == operand + [e] && [] + [e] + operand == [e] + operand;
  }

  lemma {:induction false} FlattenOperatorShape(e: Expr)
    requires !IsAtom(e.kind) && OpCountOf(e.kind) != TernaryOp && OpCountOf(e.kind) != UnaryOp
    requires ChildrenOf(e) != [] && Flatten(ChildrenOf(e)[0], Corrected).Ok?
    requires FlattenAll(ChildrenOf(e)[1..], Corrected).Ok?
    ensures Flatten(e, Corrected) ==
      Ok(Flatten(ChildrenOf(e)[0], Corrected).value + [e] + FlattenAll(ChildrenOf(e)[1..], Corrected).value)
  {
  }

  /** The corrected flattening keeps every operand of the tree, in source order. */
  lemma {:induction false} FlattenKeepsOperands(e: Expr)
    requires TernaryFree(e)
    ensures Flatten(e, Corrected).Ok? && AtomsOf(Flatten(e, Corrected).value) == Leaves(e)
    decreases Size(e), 0
  {
    var cs := ChildrenOf(e);
    SizeOfNode(e);
    SizeOfChildren(cs);
    if IsAtom(e.kind) {
      LeavesOfOne(e);
    } else {
      LeavesOfOperator(e);
      assert TernaryFreeAll(cs);
      if OpCountOf(e.kind) == UnaryOp {
        FlattenAllKeepsOperands(cs);
        FlattenUnaryShape(e);
        var operand := FlattenAll(cs, Corrected).value;
        AtomsAround(operand, e, []);
        AtomsAround([], e, operand);
        assert AtomsOf([]) == [];
      } else if cs == [] {
        LeavesOfOne(e);
      } else {
        FlattenKeepsOperands(cs[0]);
        FlattenAllKeepsOperands(cs[1..]);
        FlattenOperatorShape(e);
        AtomsAround(Flatten(cs[0], Corrected).value, e, FlattenAll(cs[1..], Corrected).value);
      }
    }
  }

  lemma {:induction false} FlattenAllKeepsOperands(cs: seq<Expr>)
    requires TernaryFreeAll(cs)
    ensures FlattenAll(cs, Corrected).Ok? && AtomsOf(FlattenAll(cs, Corrected).value) == LeavesAll(cs)
    decreases SizeAll(cs), 1
  {
    SizeOfChildren(cs);
    if cs != [] {
      FlattenKeepsOperands(cs[0]);
      FlattenAllKeepsOperands(cs[1..]);
      AtomsOfAppend(Flatten(cs[0], Corrected).value, FlattenAll(cs[1..], Corrected).value);
    }
  }

  /** Resolving an operator tree with no ternary node: when rpn_ast finishes, the operands
      on its output stack are exactly those of the tree, in order. */
  lemma {:induction false} ResolveKeepsOperands(e: Expr)
    requires TernaryFree(e)
    ensures Flatten(e, Corrected).Ok?
    ensures var out := OutputStack(Flatten(e, Corrected).value);
      out.Ok? ==> LeavesAll(out.value) == Leaves(e)
  {
    FlattenKeepsOperands(e);
    ShuntingYardKeepsOperands(Flatten(e, Corrected).value);
  }

  /** Every binary operator binds looser than a postfix one. */
  lemma {:induction false} PostfixAboveBinary(k: ExprKind, p: ExprKind)
    requires IsBinaryKind(k) && IsPostfix(p)
    ensures ShouldPop(k, p)
  {
  }

  lemma {:induction false} FlattenPostfixLeft(k: ExprKind, p: ExprKind, a: Expr, b: Expr)
    requires IsBinaryKind(k) && IsPostfix(p) && IsAtom(a.kind) && IsAtom(b.kind)
    ensures Flatten(Bin(k, Un(p, a), b), AsWritten) == Ok([Un(p, a), Bin(k, Un(p, a), b), b])
    ensures Flatten(Bin(k, Un(p, a), b), Corrected) == Ok([a, Un(p, a), Bin(k, Un(p, a), b), b])
  {
    var pa := Un(p, a);
    var e := Bin(k, pa, b);
    ArityCategories(k);
    ArityCategories(p);
    assert ChildrenOf(e)[1..] == [b];
    FlattenAllOne(b, AsWritten);
    FlattenAllOne(b, Corrected);
    FlattenAllOne(a, Corrected);
    assert Flatten(pa, Corrected) == Ok([a] + [pa]);
    assert [pa] + [e] + [b] == [pa, e, b];
    assert [a] + [pa] + [e] + [b] == [a, pa, e, b];
  }

  /** The operands of `a++ + b` are a and b. */
  lemma {:induction false} PostfixLeaves(k: ExprKind, p: ExprKind, a: Expr, b: Expr)
    requires IsBinaryKind(k) && IsPostfix(p) && IsAtom(a.kind) && IsAtom(b.kind)
    ensures Leaves(Bin(k, Un(p, a), b)) == [a, b]
  {
    var pa := Un(p, a);
    var e := Bin(k, pa, b);
    ArityCategories(k);
    ArityCategories(p);
    LeavesOfOne(a);
    LeavesOfOne(b);
    LeavesOfOperator(pa);
    LeavesOfOperator(e);
    assert [pa, b][1..] == [b];
    assert LeavesAll([pa, b]) == Leaves(pa) + LeavesAll([b]);
  }

  /** `a++ + b`, which the parser builds as (a++) + b: as written, the postfix node is
      pushed as an operator with no operand before it, and popping it finds the output
      stack empty; the operand a never reaches the output stack. */
  lemma {:induction false} PostfixOperandMissingAsWritten(k: ExprKind, p: ExprKind, a: Expr, b: Expr)
    requires IsBinaryKind(k) && IsPostfix(p) && IsAtom(a.kind) && IsAtom(b.kind)
    ensures Flatten(Bin(k, Un(p, a), b), AsWritten).Ok?
    ensures AtomsOf(Flatten(Bin(k, Un(p, a), b), AsWritten).value) == [b] != Leaves(Bin(k, Un(p, a), b))
    ensures Resolve(Bin(k, Un(p, a), b), AsWritten) == Err(OperandMissing)
  {
    var pa := Un(p, a);
    var e := Bin(k, pa, b);
    var flat := [pa, e, b];
    FlattenPostfixLeft(k, p, a, b);
    PostfixLeaves(k, p, a, b);
    ArityCategories(k);
    ArityCategories(p);
    AtomsAround([], pa, [e, b]);
    AtomsAround([], e, [b]);
    LeavesOfOne(b);
    assert [] + [pa] + [e, b] == flat && [] + [e] + [b] == [e, b];
    RunPostfixAsWritten(k, p, pa, e, b);
  }

  lemma {:induction false} RunPostfixAsWritten(k: ExprKind, p: ExprKind, pa: Expr, e: Expr, b: Expr)
    requires IsBinaryKind(k) && IsPostfix(p) && pa.kind == p && e.kind == k
    ensures OutputStack([pa, e, b]) == Err(OperandMissing)
  {
    var flat := [pa, e, b];
    ArityCategories(k);
    ArityCategories(p);
    PostfixAboveBinary(k, p);
    assert [] + [p] == [p];
    assert Apply(p, []) == Err(OperandMissing);
    RunOperator(flat, 0, [], []);
    DrainPush(flat, 0, [], []);
    RunOperator(flat, 1, [p], []);
  }

  lemma {:induction false} RunPostfixStart(k: ExprKind, p: ExprKind, a: Expr, b: Expr, pa: Expr, e: Expr)
    requires IsBinaryKind(k) && IsPostfix(p) && IsAtom(a.kind) && IsAtom(b.kind)
    requires pa == Un(p, a) && e.kind == k
    ensures OutputStack([a, pa, e, b]) == Drain([a, pa, e, b], 2, [], [pa])
  {
    var flat := [a, pa, e, b];
    ArityCategories(k);
    ArityCategories(p);
    PostfixAboveBinary(k, p);
    ApplyUnary(p, [], a);
    assert [] + [a] == [a] && [] + [pa] == [pa] && [] + [p] == [p] && [p][..0] == [];
    RunOperand(flat, 0, [], []);
    RunOperator(flat, 1, [], [a]);
    DrainPush(flat, 1, [], [a]);
    RunOperator(flat, 2, [p], [a]);
    DrainPop(flat, 2, [p], [a], [pa]);
  }

  lemma {:induction false} RunPostfixEnd(k: ExprKind, a: Expr, b: Expr, pa: Expr, e: Expr)
    requires IsBinaryKind(k) && IsAtom(b.kind) && !IsAtom(e.kind) && e.kind == k
    ensures Drain([a, pa, e, b], 2, [], [pa]) == Ok([Bin(k, pa, b)])
  {
    var flat := [a, pa, e, b];
    var r := Bin(k, pa, b);
    ApplyBinary(k, [], pa, b);
    assert [] + [pa, b] == [pa, b] && [] + [r] == [r];
    assert [] + [k] == [k] && [pa] + [b] == [pa, b] && [k][..0] == [];
    DrainPush(flat, 2, [], [pa]);
    RunOperand(flat, 3, [k], [pa]);
    RunEnd(flat, [k], [pa, b]);
    FlushPop([k], [pa, b], [r]);
  }

  /** The corrected flattening puts the postfix operator after its operand, and `a++ + b`
      comes out as the tree it went in as. */
  lemma {:induction false} PostfixOperandCorrected(k: ExprKind, p: ExprKind, a: Expr, b: Expr)
    requires IsBinaryKind(k) && IsPostfix(p) && IsAtom(a.kind) && IsAtom(b.kind)
    ensures Resolve(Bin(k, Un(p, a), b), Corrected) == Ok(Bin(k, Un(p, a), b))
  {
    var pa := Un(p, a);
    var e := Bin(k, pa, b);
    FlattenPostfixLeft(k, p, a, b);
    ArityCategories(k);
    RunPostfixStart(k, p, a, b, pa, e);
    RunPostfixEnd(k, a, b, pa, e);
    ResolveOperator(e, Corrected, [a, pa, e, b], [e]);
  }
}
