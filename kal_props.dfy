/**
 * What the Kaleidoscope expression parser promises: where an expression
 * stops, how equal and tighter operators group, calls with their arguments
 * in order, the error cases, and what `ParseParenExpr` does as written.
 */
module KalProps {
  import opened Wrappers
  import opened KalSyntax
  import opened KalGrammar

  const A := Identifier("a")
  const B := Identifier("b")
  const C := Identifier("c")
  const F := Identifier("f")
  const Va := VariableExpr("a")
  const Vb := VariableExpr("b")
  const Vc := VariableExpr("c")

  /** `ParseBinOpRHS` returns its left operand and reads nothing when `CurTok` binds looser than the threshold. */
  lemma BelowThresholdReturnsLhs(toks: seq<Token>, exprPrec: int, lhs: Expr, pos: nat)
    requires 0 <= exprPrec && pos <= |toks|
    requires Precedence(Cur(toks, pos)) < exprPrec
    ensures BinOpRHSAt(toks, exprPrec, lhs, pos) == Some((lhs, pos))
  {
  }

  /** A primary followed by a token that is not an operator is the whole expression. */
  lemma NonOperatorEndsExpression(toks: seq<Token>, pos: nat)
    requires pos <= |toks| && PrimaryAt(toks, pos).Some?
    requires Precedence(Cur(toks, PrimaryAt(toks, pos).value.1)) < 0
    ensures ExpressionAt(toks, pos) == PrimaryAt(toks, pos)
  {
  }

  /** A right operand that is not a primary makes the whole `ParseBinOpRHS` fail. */
  lemma MissingRightOperandFails(toks: seq<Token>, exprPrec: int, lhs: Expr, pos: nat)
    requires 0 <= exprPrec && pos <= |toks|
    requires Precedence(Cur(toks, pos)) >= exprPrec
    requires PrimaryAt(toks, pos + 1).None?
    ensures BinOpRHSAt(toks, exprPrec, lhs, pos).None?
  {
  }

  /** A failing nested call for a tighter operator makes the whole `ParseBinOpRHS` fail. */
  lemma NestedFailureFails(toks: seq<Token>, exprPrec: int, lhs: Expr, pos: nat)
    requires 0 <= exprPrec && pos <= |toks|
    requires Precedence(Cur(toks, pos)) >= exprPrec
    requires PrimaryAt(toks, pos + 1).Some?
    requires Precedence(Cur(toks, pos)) < Precedence(Cur(toks, PrimaryAt(toks, pos + 1).value.1))
    requires BinOpRHSAt(toks, Precedence(Cur(toks, pos)) + 1,
                        PrimaryAt(toks, pos + 1).value.0, PrimaryAt(toks, pos + 1).value.1).None?
    ensures BinOpRHSAt(toks, exprPrec, lhs, pos).None?
  {
  }

  /** `ParsePrimary` rejects every token but an identifier, a number or `(`, and so does `ParseExpression`. */
  lemma PrimaryRejectsOtherTokens(toks: seq<Token>, pos: nat)
    requires pos <= |toks|
    requires !Cur(toks, pos).Identifier? && !Cur(toks, pos).Number? && Cur(toks, pos) != Char('(')
    ensures PrimaryAt(toks, pos).None? && ExpressionAt(toks, pos).None?
    ensures TopLevelAt(toks, pos).None?
  {
  }

  /** An identifier not followed by `(` is a variable reference. */
  lemma IdentifierAloneIsVariable(toks: seq<Token>, pos: nat)
    requires pos < |toks| && toks[pos].Identifier? && Cur(toks, pos + 1) != Char('(')
    ensures PrimaryAt(toks, pos) == Some((VariableExpr(toks[pos].name), pos + 1))
  {
  }

  /** The tokens that are expressions by themselves: numbers and identifiers. */
  predicate IsOperand(t: Token) { t.Number? || t.Identifier? }

  /** The tree of a lone operand: a number or a variable reference. */
  function Leaf(t: Token): Expr
    requires IsOperand(t)
  {
    if t.Number? then NumberExpr(t.val) else VariableExpr(t.name)
  }

  /** The leaves of a list of operands, in order. */
  function Leaves(xs: seq<Token>): (es: seq<Expr>)
    requires forall i :: 0 <= i < |xs| ==> IsOperand(xs[i])
    ensures |es| == |xs| && forall i :: 0 <= i < |xs| ==> es[i] == Leaf(xs[i])
  {
    if xs == [] then [] else [Leaf(xs[0])] + Leaves(xs[1..])
  }

  /** An operand followed by a token that is neither an operator nor `(` is an expression by itself. */
  lemma OperandAlone(toks: seq<Token>, pos: nat)
    requires pos < |toks| && IsOperand(toks[pos])
    requires Cur(toks, pos + 1) != Char('(') && Precedence(Cur(toks, pos + 1)) < 0
    ensures ExpressionAt(toks, pos) == Some((Leaf(toks[pos]), pos + 1))
  {
    assert PrimaryAt(toks, pos) == Some((Leaf(toks[pos]), pos + 1));
  }

  /** From `pos` on, the operands `xs` separated by `,` and closed by `)`. */
  predicate OperandList(toks: seq<Token>, pos: nat, xs: seq<Token>) {
    forall i :: 0 <= i < |xs| ==>
      pos + 2 * i + 1 < |toks| && toks[pos + 2 * i] == xs[i] && IsOperand(xs[i]) &&
      toks[pos + 2 * i + 1] == (if i + 1 < |xs| then Char(',') else Char(')'))
  }

  /** One step of the argument loop over an operand: `,` goes on to the next argument, `)` ends the list. */
  lemma OperandArgument(toks: seq<Token>, pos: nat, acc: seq<Expr>, next: nat)
    requires pos + 1 < |toks| && IsOperand(toks[pos]) && next == pos + 2
    requires toks[pos + 1] == Char(',') || toks[pos + 1] == Char(')')
    ensures toks[pos + 1] == Char(')') ==> ArgsAt(toks, pos, acc) == Some((acc + [Leaf(toks[pos])], pos + 1))
    ensures toks[pos + 1] == Char(',') ==> ArgsAt(toks, pos, acc) == ArgsAt(toks, next, acc + [Leaf(toks[pos])])
  {
    OperandAlone(toks, pos);
  }

  /** The first operand of the list and the token after it. */
  lemma OperandListHead(toks: seq<Token>, pos: nat, xs: seq<Token>)
    requires 0 < |xs| && OperandList(toks, pos, xs)
    ensures pos + 1 < |toks| && toks[pos] == xs[0] && IsOperand(xs[0])
    ensures toks[pos + 1] == if 1 < |xs| then Char(',') else Char(')')
  {
    assert pos + 2 * 0 + 1 < |toks| && toks[pos + 2 * 0] == xs[0] && IsOperand(xs[0]);
    assert toks[pos + 2 * 0 + 1] == (if 1 < |xs| then Char(',') else Char(')'));
  }

  /** The list after its first operand and `,`. */
  lemma OperandListTail(toks: seq<Token>, pos: nat, xs: seq<Token>, next: nat)
    requires 1 < |xs| && OperandList(toks, pos, xs) && next == pos + 2
    ensures OperandList(toks, next, xs[1..])
  {
    var rest := xs[1..];
    forall i | 0 <= i < |rest|
      ensures next + 2 * i + 1 < |toks| && toks[next + 2 * i] == rest[i] && IsOperand(rest[i])
      ensures toks[next + 2 * i + 1] == (if i + 1 < |rest| then Char(',') else Char(')'))
    {
      var j := i + 1;
      assert pos + 2 * j + 1 < |toks| && toks[pos + 2 * j] == xs[j] && IsOperand(xs[j]);
      assert toks[pos + 2 * j + 1] == (if j + 1 < |xs| then Char(',') else Char(')'));
    }
  }

  /** The leaves of a list are the leaf of its head, then the leaves of its tail. */
  lemma LeavesCons(xs: seq<Token>, acc: seq<Expr>)
    requires 0 < |xs| && forall i :: 0 <= i < |xs| ==> IsOperand(xs[i])
    ensures acc + [Leaf(xs[0])] + Leaves(xs[1..]) == acc + Leaves(xs)
  {
    LeavesHead(xs);
    Regroup(acc, [Leaf(xs[0])], Leaves(xs[1..]));
  }

  /** One unfolding of `Leaves`. */
  lemma LeavesHead(xs: seq<Token>)
    requires 0 < |xs| && forall i :: 0 <= i < |xs| ==> IsOperand(xs[i])
    ensures Leaves(xs) == [Leaf(xs[0])] + Leaves(xs[1..])
  {
  }

  /** Concatenation of expression lists regroups freely. */
  lemma Regroup(a: seq<Expr>, b: seq<Expr>, c: seq<Expr>)
    ensures a + b + c == a + (b + c)
  {
  }

  /**
   * The argument loop over "x1, x2, ..., xn)" appends the operands to the
   * arguments already read, in source order, and stops on the `)` at `end`.
   */
  lemma {:induction false} OperandArgumentsInOrder(toks: seq<Token>, pos: nat, xs: seq<Token>, acc: seq<Expr>, end: nat)
    requires pos < |toks| && 0 < |xs| && OperandList(toks, pos, xs) && end == pos + 2 * |xs| - 1
    ensures ArgsAt(toks, pos, acc) == Some((acc + Leaves(xs), end))
    decreases |xs|
  {
    var next := pos + 2;
    OperandListHead(toks, pos, xs);
    OperandArgument(toks, pos, acc, next);
    var leaf := Leaf(xs[0]);
    if |xs| == 1 {
      assert Leaves(xs) == [leaf];
    } else {
      OperandListTail(toks, pos, xs, next);
      OperandArgumentsInOrder(toks, next, xs[1..], acc + [leaf], end);
      LeavesCons(xs, acc);
    }
  }

  /** An identifier, `(` and an argument list that the argument loop reads up to its `)`. */
  lemma CallAt(toks: seq<Token>, pos: nat, start: nat, args: seq<Expr>, close: nat)
    requires pos + 1 < |toks| && toks[pos].Identifier? && toks[pos + 1] == Char('(')
    requires start == pos + 2 && start < |toks| && toks[start] != Char(')')
    requires ArgsAt(toks, start, []) == Some((args, close))
    ensures PrimaryAt(toks, pos) == Some((CallExpr(toks[pos].name, args), close + 1))
  {
  }

  /** "f(x1, ..., xn)" over operands is a call of `f` with the operands as arguments, in order. */
  lemma CallOfOperands(toks: seq<Token>, pos: nat, xs: seq<Token>)
    requires pos + 1 < |toks| && toks[pos].Identifier? && toks[pos + 1] == Char('(')
    requires 0 < |xs| && OperandList(toks, pos + 2, xs)
    ensures PrimaryAt(toks, pos) == Some((CallExpr(toks[pos].name, Leaves(xs)), pos + 2 * |xs| + 2))
  {
    var start := pos + 2;
    var close := start + 2 * |xs| - 1;
    OperandListHead(toks, start, xs);
    OperandArgumentsInOrder(toks, start, xs, [], close);
    assert [] + Leaves(xs) == Leaves(xs);
    CallAt(toks, pos, start, Leaves(xs), close);
  }

  /** "a - b - c" groups to the left: (a - b) - c. */
  lemma SubtractionGroupsLeft()
    ensures ExpressionAt([A, Char('-'), B, Char('-'), C], 0) ==
            Some((BinaryExpr('-', BinaryExpr('-', Va, Vb), Vc), 5))
  {
    var toks := [A, Char('-'), B, Char('-'), C];
    var ab := BinaryExpr('-', Va, Vb);
    assert PrimaryAt(toks, 4) == Some((Vc, 5));
    assert BinOpRHSAt(toks, 0, BinaryExpr('-', ab, Vc), 5) == Some((BinaryExpr('-', ab, Vc), 5));
    assert BinOpRHSAt(toks, 0, ab, 3) == Some((BinaryExpr('-', ab, Vc), 5));
    assert PrimaryAt(toks, 2) == Some((Vb, 3));
    assert BinOpRHSAt(toks, 0, Va, 1) == Some((BinaryExpr('-', ab, Vc), 5));
    assert PrimaryAt(toks, 0) == Some((Va, 1));
  }

  /** "a + b * c" nests the tighter operator to the right: a + (b * c). */
  lemma TighterOperatorNestsRight()
    ensures ExpressionAt([A, Char('+'), B, Char('*'), C], 0) ==
            Some((BinaryExpr('+', Va, BinaryExpr('*', Vb, Vc)), 5))
  {
    var toks := [A, Char('+'), B, Char('*'), C];
    var bc := BinaryExpr('*', Vb, Vc);
    assert PrimaryAt(toks, 4) == Some((Vc, 5));
    assert BinOpRHSAt(toks, 21, bc, 5) == Some((bc, 5));
    assert BinOpRHSAt(toks, 21, Vb, 3) == Some((bc, 5));
    assert PrimaryAt(toks, 2) == Some((Vb, 3));
    assert BinOpRHSAt(toks, 0, BinaryExpr('+', Va, bc), 5) == Some((BinaryExpr('+', Va, bc), 5));
    assert BinOpRHSAt(toks, 0, Va, 1) == Some((BinaryExpr('+', Va, bc), 5));
    assert PrimaryAt(toks, 0) == Some((Va, 1));
  }

  /** "f(a, b + c)" is a call of `f` with its two arguments in source order. */
  lemma CallArgumentsInOrder()
    ensures ExpressionAt([F, Char('('), A, Char(','), B, Char('+'), C, Char(')')], 0) ==
            Some((CallExpr("f", [Va, BinaryExpr('+', Vb, Vc)]), 8))
  {
    var toks := [F, Char('('), A, Char(','), B, Char('+'), C, Char(')')];
    var bc := BinaryExpr('+', Vb, Vc);
    assert PrimaryAt(toks, 6) == Some((Vc, 7));
    assert BinOpRHSAt(toks, 0, bc, 7) == Some((bc, 7));
    assert BinOpRHSAt(toks, 0, Vb, 5) == Some((bc, 7));
    assert PrimaryAt(toks, 4) == Some((Vb, 5));
    assert ExpressionAt(toks, 4) == Some((bc, 7));
    assert [Va] + [bc] == [Va, bc];
    assert ArgsAt(toks, 4, [Va]) == Some(([Va, bc], 7));
    assert PrimaryAt(toks, 2) == Some((Va, 3));
    assert ExpressionAt(toks, 2) == Some((Va, 3));
    assert [] + [Va] == [Va];
    assert ArgsAt(toks, 2, []) == Some(([Va, bc], 7));
    assert IdentifierAt(toks, 0) == Some((CallExpr("f", [Va, bc]), 8));
    assert PrimaryAt(toks, 0) == Some((CallExpr("f", [Va, bc]), 8));
  }

  /** "f()" is a call without arguments. */
  lemma EmptyCall()
    ensures ExpressionAt([F, Char('('), Char(')')], 0) == Some((CallExpr("f", []), 3))
  {
    var toks := [F, Char('('), Char(')')];
    assert PrimaryAt(toks, 0) == Some((CallExpr("f", []), 3));
  }

  /** "f(a b)": after an argument, a token other than `)` or `,` is an error. */
  lemma BadArgumentSeparator()
    ensures ExpressionAt([F, Char('('), A, B, Char(')')], 0).None?
  {
    var toks := [F, Char('('), A, B, Char(')')];
    assert PrimaryAt(toks, 2) == Some((Va, 3));
    assert ExpressionAt(toks, 2) == Some((Va, 3));
    assert ArgsAt(toks, 2, []).None?;
    assert PrimaryAt(toks, 0).None?;
  }

  /**
   * `ParseParenExpr` as written: "(a)" is an error because the closing `)` is
   * refused, while "(a;" is accepted with the `;` eaten in its place.
   */
  lemma ParenthesesAsWritten()
    ensures ExpressionAt([Char('('), A, Char(')')], 0).None?
    ensures ExpressionAt([Char('('), A, Char(';')], 0) == Some((Va, 3))
  {
    var good := [Char('('), A, Char(')')];
    assert PrimaryAt(good, 1) == Some((Va, 2));
    assert ExpressionAt(good, 1) == Some((Va, 2));
    assert PrimaryAt(good, 0).None?;
    var odd := [Char('('), A, Char(';')];
    assert PrimaryAt(odd, 1) == Some((Va, 2));
    assert ExpressionAt(odd, 1) == Some((Va, 2));
    assert PrimaryAt(odd, 0) == Some((Va, 3));
  }

  /** "a + b" at top level becomes the body of an anonymous function without parameters. */
  lemma TopLevelExample()
    ensures TopLevelAt([A, Char('+'), B], 0) ==
            Some((Function(Prototype("", []), BinaryExpr('+', Va, Vb)), 3))
  {
    var toks := [A, Char('+'), B];
    assert PrimaryAt(toks, 2) == Some((Vb, 3));
    assert BinOpRHSAt(toks, 0, Va, 1) == Some((BinaryExpr('+', Va, Vb), 3));
    assert PrimaryAt(toks, 0) == Some((Va, 1));
  }
}
