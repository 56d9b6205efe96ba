/**
 * The tree shape precedence climbing builds. On a run of operands and binary
 * operators (no parentheses, no calls) `ParseExpression` returns a tree that
 *
 *   - reads back, in order, exactly the tokens it consumed (`Yield`), and
 *   - is well shaped: below an operator, the left operand's root binds at
 *     least as tightly and the right operand's root strictly tighter, so
 *     equal precedence groups to the left and tighter operators nest.
 *
 * Such a tree is unique for its token run (`ShapeDeterminesTree`), and every
 * well-shaped tree is what the parser returns on its own yield
 * (`ParseYield`): the parser computes exactly the well-shaped reading.
 */
module KalShape {
  import opened Wrappers
  import opened KalSyntax
  import opened KalGrammar
  import opened KalProps

  /** Above every operator's precedence: the binding strength of a leaf. */
  const AtomPrec := 100

  /** How tightly the root of a tree binds. */
  function RootPrec(e: Expr): int {
    if e.BinaryExpr? then Precedence(Char(e.op)) else AtomPrec
  }

  /** Leaves are numbers and variables; every inner node a binary operator with the precedence discipline. */
  predicate WellShaped(e: Expr) {
    match e
    case NumberExpr(_) => true
    case VariableExpr(_) => true
    case CallExpr(_, _) => false
    case BinaryExpr(op, l, r) =>
      IsBinOpChar(op) && WellShaped(l) && WellShaped(r) &&
      RootPrec(l) >= Precedence(Char(op)) && RootPrec(r) > Precedence(Char(op))
  }

  /** The tokens a well-shaped tree reads back as, left to right. */
  function Yield(e: Expr): seq<Token>
    requires WellShaped(e)
  {
    match e
    case NumberExpr(v) => [Number(v)]
    case VariableExpr(n) => [Identifier(n)]
    case BinaryExpr(op, l, r) => Yield(l) + [Char(op)] + Yield(r)
  }

  /** A token list without `(`: no parenthesised expression and no call. */
  predicate Flat(toks: seq<Token>) {
    forall k :: 0 <= k < |toks| ==> toks[k] != Char('(')
  }

  lemma SliceJoin(toks: seq<Token>, a: nat, b: nat, c: nat)
    requires a <= b <= c <= |toks|
    ensures toks[a..b] + toks[b..c] == toks[a..c]
  {
  }

  /** Without `(`, a primary is a single operand. */
  lemma FlatPrimary(toks: seq<Token>, pos: nat)
    requires Flat(toks) && pos <= |toks|
    ensures IsOperand(Cur(toks, pos)) ==> PrimaryAt(toks, pos) == Some((Leaf(toks[pos]), pos + 1))
    ensures !IsOperand(Cur(toks, pos)) ==> PrimaryAt(toks, pos).None?
  {
    if pos + 1 < |toks| {
      assert toks[pos + 1] != Char('(');
    }
  }

  /** A leaf is well shaped and reads back as its token. */
  lemma LeafShape(toks: seq<Token>, pos: nat)
    requires pos < |toks| && IsOperand(toks[pos])
    ensures WellShaped(Leaf(toks[pos])) && RootPrec(Leaf(toks[pos])) == AtomPrec
    ensures Yield(Leaf(toks[pos])) == toks[pos..pos + 1]
  {
  }

  /** Joining two well-shaped trees under an operator that binds looser than both roots. */
  lemma NodeShape(toks: seq<Token>, start: nat, pos: nat, q: nat, lhs: Expr, rhs: Expr)
    requires start <= pos < q <= |toks| && toks[pos].Char? && IsBinOpChar(toks[pos].c)
    requires WellShaped(lhs) && Yield(lhs) == toks[start..pos]
    requires WellShaped(rhs) && Yield(rhs) == toks[pos + 1..q]
    requires RootPrec(lhs) >= Precedence(toks[pos]) && RootPrec(rhs) > Precedence(toks[pos])
    ensures WellShaped(BinaryExpr(toks[pos].c, lhs, rhs))
    ensures Yield(BinaryExpr(toks[pos].c, lhs, rhs)) == toks[start..q]
    ensures RootPrec(BinaryExpr(toks[pos].c, lhs, rhs)) == Precedence(toks[pos])
  {
    SliceJoin(toks, start, pos, pos + 1);
    SliceJoin(toks, start, pos + 1, q);
  }

  /**
   * One round of the `ParseBinOpRHS` loop on a flat run when the operand
   * after the operator is not absorbed: `lhs` becomes the operator node over
   * `lhs` and that operand, and the loop goes on after it.
   */
  lemma FlatStepKeep(toks: seq<Token>, exprPrec: int, lhs: Expr, pos: nat, opnd: nat, after: nat)
    requires Flat(toks) && 0 <= exprPrec && opnd == pos + 1 && after == pos + 2
    requires opnd < |toks| && IsOperand(toks[opnd])
    requires exprPrec <= Precedence(Cur(toks, pos)) && Precedence(Cur(toks, after)) <= Precedence(Cur(toks, pos))
    ensures toks[pos].Char?
    ensures BinOpRHSAt(toks, exprPrec, lhs, pos) ==
            BinOpRHSAt(toks, exprPrec, BinaryExpr(toks[pos].c, lhs, Leaf(toks[opnd])), after)
  {
    FlatPrimary(toks, opnd);
  }

  /**
   * One round of the `ParseBinOpRHS` loop on a flat run when the operator
   * after the operand binds tighter: the operand first absorbs what the
   * recursive call at threshold `TokPrec + 1` reads, and a failure there is
   * a failure of the whole.
   */
  lemma FlatStepNest(toks: seq<Token>, exprPrec: int, lhs: Expr, pos: nat, opnd: nat, after: nat)
    requires Flat(toks) && 0 <= exprPrec && opnd == pos + 1 && after == pos + 2
    requires opnd < |toks| && IsOperand(toks[opnd])
    requires exprPrec <= Precedence(Cur(toks, pos)) < Precedence(Cur(toks, after))
    ensures toks[pos].Char?
    ensures var inner := BinOpRHSAt(toks, Precedence(toks[pos]) + 1, Leaf(toks[opnd]), after);
            (inner.None? ==> BinOpRHSAt(toks, exprPrec, lhs, pos).None?) &&
            (inner.Some? ==> BinOpRHSAt(toks, exprPrec, lhs, pos) ==
                             BinOpRHSAt(toks, exprPrec, BinaryExpr(toks[pos].c, lhs, inner.value.0), inner.value.1))
  {
    FlatPrimary(toks, opnd);
  }

  /**
   * The invariant of `ParseBinOpRHS` on a flat run: if the tree built so far
   * is well shaped, reads back as the tokens from `start`, binds at least as
   * tightly as the threshold and as `CurTok`, then so is the result, and it
   * reads back as everything consumed from `start`.
   */
  lemma {:induction false} BinOpRHSShape(toks: seq<Token>, exprPrec: int, lhs: Expr, start: nat, pos: nat)
    requires Flat(toks) && 0 <= exprPrec && start <= pos <= |toks|
    requires WellShaped(lhs) && Yield(lhs) == toks[start..pos]
    requires RootPrec(lhs) >= exprPrec && Precedence(Cur(toks, pos)) <= RootPrec(lhs)
    ensures BinOpRHSAt(toks, exprPrec, lhs, pos).Some? ==>
              var e := BinOpRHSAt(toks, exprPrec, lhs, pos).value.0;
              WellShaped(e) && Yield(e) == toks[start..BinOpRHSAt(toks, exprPrec, lhs, pos).value.1] &&
              RootPrec(e) >= exprPrec
    decreases |toks| - pos
  {
    var tokPrec := Precedence(Cur(toks, pos));
    var opnd, after := pos + 1, pos + 2;
    if tokPrec >= exprPrec {
      FlatPrimary(toks, opnd);
      if PrimaryAt(toks, opnd).Some? {
        var leaf := Leaf(toks[opnd]);
        LeafShape(toks, opnd);
        var r, q;
        if tokPrec < Precedence(Cur(toks, after)) {
          FlatStepNest(toks, exprPrec, lhs, pos, opnd, after);
          var inner := BinOpRHSAt(toks, tokPrec + 1, leaf, after);
          BinOpRHSShape(toks, tokPrec + 1, leaf, opnd, after);
          if inner.None? {
            return;
          }
          r, q := inner.value.0, inner.value.1;
        } else {
          FlatStepKeep(toks, exprPrec, lhs, pos, opnd, after);
          r, q := leaf, after;
        }
        NodeShape(toks, start, pos, q, lhs, r);
        BinOpRHSShape(toks, exprPrec, BinaryExpr(toks[pos].c, lhs, r), start, q);
      }
    }
  }

  /**
   * Soundness: on a flat run, `ParseExpression` returns a well-shaped tree
   * that reads back as exactly the tokens it consumed.
   */
  lemma ExpressionShape(toks: seq<Token>, pos: nat)
    requires Flat(toks) && pos <= |toks|
    ensures ExpressionAt(toks, pos).Some? ==>
              WellShaped(ExpressionAt(toks, pos).value.0) &&
              Yield(ExpressionAt(toks, pos).value.0) == toks[pos..ExpressionAt(toks, pos).value.1]
  {
    FlatPrimary(toks, pos);
    if PrimaryAt(toks, pos).Some? {
      LeafShape(toks, pos);
      BinOpRHSShape(toks, 0, Leaf(toks[pos]), pos, pos + 1);
    }
  }

  /** Operand, operator, operand, ..., operand: odd length, operands at even places, binary operators at odd places. */
  predicate Alternating(y: seq<Token>) {
    |y| % 2 == 1 &&
    forall k :: 0 <= k < |y| ==>
      if k % 2 == 0 then IsOperand(y[k]) else y[k].Char? && IsBinOpChar(y[k].c)
  }

  /** Two alternating runs joined by a binary operator alternate. */
  lemma JoinAlternating(a: seq<Token>, op: char, b: seq<Token>)
    requires Alternating(a) && Alternating(b) && IsBinOpChar(op)
    ensures Alternating(a + [Char(op)] + b)
  {
    var y, n := a + [Char(op)] + b, |a|;
    forall k | 0 <= k < |y|
      ensures if k % 2 == 0 then IsOperand(y[k]) else y[k].Char? && IsBinOpChar(y[k].c)
    {
      if k < n {
        assert y[k] == a[k];
      } else if k > n {
        var j := k - n - 1;
        assert y[k] == b[j];
        ShiftParity(k, n, j);
      }
    }
  }

  /** Moving past an odd-length prefix and one more place keeps parity. */
  lemma ShiftParity(k: int, n: int, j: int)
    requires n % 2 == 1 && j == k - n - 1
    ensures j % 2 == k % 2
  {
  }

  /** A well-shaped tree reads back as operand, operator, operand, ..., operand. */
  lemma {:induction false} YieldAlternates(e: Expr)
    requires WellShaped(e)
    ensures Alternating(Yield(e))
  {
    match e
    case NumberExpr(_) =>
    case VariableExpr(_) =>
    case BinaryExpr(op, l, r) =>
      YieldAlternates(l);
      YieldAlternates(r);
      JoinAlternating(Yield(l), op, Yield(r));
  }

  /** The root of a well-shaped tree sits where its left operand's yield ends. */
  lemma RootPosition(e: Expr)
    requires WellShaped(e) && e.BinaryExpr?
    ensures |Yield(e.lhs)| < |Yield(e)| && Yield(e)[|Yield(e.lhs)|] == Char(e.op)
    ensures Yield(e)[..|Yield(e.lhs)|] == Yield(e.lhs) && Yield(e)[|Yield(e.lhs)| + 1..] == Yield(e.rhs)
  {
    assert Yield(e) == Yield(e.lhs) + [Char(e.op)] + Yield(e.rhs);
  }

  /** Every operator in the yield of a well-shaped tree binds at least as tightly as its root. */
  lemma {:induction false} YieldOperators(e: Expr)
    requires WellShaped(e)
    ensures forall k :: 0 <= k < |Yield(e)| && Yield(e)[k].Char? ==> Precedence(Yield(e)[k]) >= RootPrec(e)
  {
    match e
    case NumberExpr(_) =>
    case VariableExpr(_) =>
    case BinaryExpr(op, l, r) =>
      YieldOperators(l);
      YieldOperators(r);
      var y, n := Yield(e), |Yield(l)|;
      assert y == Yield(l) + [Char(op)] + Yield(r);
      forall k | 0 <= k < |y| && y[k].Char?
        ensures Precedence(y[k]) >= RootPrec(e)
      {
        if k < n {
          assert y[k] == Yield(l)[k];
        } else if k > n {
          assert y[k] == Yield(r)[k - n - 1];
        }
      }
  }

  /**
   * Around the root of a well-shaped tree, every operator to its left binds
   * at least as tightly as the root and every operator to its right strictly
   * tighter.
   */
  lemma RootSplit(e: Expr)
    requires WellShaped(e) && e.BinaryExpr?
    ensures forall k :: 0 <= k < |Yield(e.lhs)| && Yield(e)[k].Char? ==> Precedence(Yield(e)[k]) >= RootPrec(e)
    ensures forall k :: |Yield(e.lhs)| < k < |Yield(e)| && Yield(e)[k].Char? ==> Precedence(Yield(e)[k]) > RootPrec(e)
  {
    YieldOperators(e.lhs);
    YieldOperators(e.rhs);
    RootPosition(e);
    var y, n := Yield(e), |Yield(e.lhs)|;
    forall k | 0 <= k < n && y[k].Char?
      ensures Precedence(y[k]) >= RootPrec(e)
    {
      assert y[k] == Yield(e.lhs)[k];
    }
    forall k | n < k < |y| && y[k].Char?
      ensures Precedence(y[k]) > RootPrec(e)
    {
      assert y[k] == Yield(e.rhs)[k - n - 1];
    }
  }

  /**
   * Uniqueness: two well-shaped trees with the same yield are equal. The
   * root must be the last operator of lowest precedence: every operator to
   * its left binds at least as tightly, every one to its right strictly
   * tighter.
   */
  lemma {:induction false} ShapeDeterminesTree(e1: Expr, e2: Expr)
    requires WellShaped(e1) && WellShaped(e2) && Yield(e1) == Yield(e2)
    ensures e1 == e2
  {
    var y := Yield(e1);
    if e1.BinaryExpr? && e2.BinaryExpr? {
      RootPosition(e1);
      RootPosition(e2);
      RootSplit(e1);
      RootSplit(e2);
      var i1, i2 := |Yield(e1.lhs)|, |Yield(e2.lhs)|;
      if i1 < i2 {
        assert false;
      } else if i2 < i1 {
        assert false;
      }
      ShapeDeterminesTree(e1.lhs, e2.lhs);
      ShapeDeterminesTree(e1.rhs, e2.rhs);
    } else if e1.BinaryExpr? {
      RootPosition(e1);
    } else if e2.BinaryExpr? {
      RootPosition(e2);
    } else {
      assert y[0] == Yield(e1)[0] == Yield(e2)[0];
    }
  }

  /**
   * The first `n` tokens alternate operand, operator, operand, ... and end
   * with an operand, and the token after them is not an operator.
   */
  predicate Chain(toks: seq<Token>, n: nat) {
    n <= |toks| && n % 2 == 1 &&
    (forall k :: 0 <= k < n ==> if k % 2 == 0 then IsOperand(toks[k]) else Precedence(toks[k]) >= 0) &&
    Precedence(Cur(toks, n)) < 0
  }

  /** In an odd-length run, the place after an operator place holds an operand and the one after that is an operator place again. */
  lemma OperatorPlace(pos: nat, n: nat)
    requires pos < n && pos % 2 == 1 && n % 2 == 1
    ensures pos + 1 < n && (pos + 1) % 2 == 0 && pos + 2 <= n && (pos + 2) % 2 == 1
  {
  }

  /** On an alternating run, `ParseBinOpRHS` from an operator place succeeds and stops at an operator place. */
  lemma {:induction false} BinOpRHSSucceeds(toks: seq<Token>, n: nat, exprPrec: int, lhs: Expr, pos: nat)
    requires Flat(toks) && Chain(toks, n) && 0 <= exprPrec && pos <= n && pos % 2 == 1
    ensures BinOpRHSAt(toks, exprPrec, lhs, pos).Some?
    ensures BinOpRHSAt(toks, exprPrec, lhs, pos).value.1 <= n
    ensures BinOpRHSAt(toks, exprPrec, lhs, pos).value.1 % 2 == 1
    decreases |toks| - pos
  {
    var tokPrec := Precedence(Cur(toks, pos));
    var opnd, after := pos + 1, pos + 2;
    if tokPrec >= exprPrec {
      assert pos < n;
      OperatorPlace(pos, n);
      assert IsOperand(toks[opnd]);
      var leaf := Leaf(toks[opnd]);
      if tokPrec < Precedence(Cur(toks, after)) {
        FlatStepNest(toks, exprPrec, lhs, pos, opnd, after);
        BinOpRHSSucceeds(toks, n, tokPrec + 1, leaf, after);
        var q := BinOpRHSAt(toks, tokPrec + 1, leaf, after).value;
        BinOpRHSSucceeds(toks, n, exprPrec, BinaryExpr(toks[pos].c, lhs, q.0), q.1);
      } else {
        FlatStepKeep(toks, exprPrec, lhs, pos, opnd, after);
        BinOpRHSSucceeds(toks, n, exprPrec, BinaryExpr(toks[pos].c, lhs, leaf), after);
      }
    }
  }

  /** On an alternating run, `ParseExpression` consumes exactly the run. */
  lemma ExpressionReadsChain(toks: seq<Token>, n: nat)
    requires Flat(toks) && Chain(toks, n)
    ensures ExpressionAt(toks, 0).Some? && ExpressionAt(toks, 0).value.1 == n
  {
    assert IsOperand(toks[0]);
    FlatPrimary(toks, 0);
    BinOpRHSSucceeds(toks, n, 0, Leaf(toks[0]), 1);
  }

  /** The yield of a well-shaped tree is an alternating run without `(`. */
  lemma YieldIsChain(e: Expr)
    requires WellShaped(e)
    ensures Flat(Yield(e)) && Chain(Yield(e), |Yield(e)|)
  {
    YieldAlternates(e);
  }

  /**
   * Completeness: parsing the yield of any well-shaped tree gives back that
   * tree and reads every token; with `ExpressionShape` and
   * `ShapeDeterminesTree`, the parser returns exactly the well-shaped
   * reading of every operand/operator run.
   */
  lemma ParseYield(e: Expr)
    requires WellShaped(e)
    ensures ExpressionAt(Yield(e), 0) == Some((e, |Yield(e)|))
  {
    var toks := Yield(e);
    YieldIsChain(e);
    ExpressionReadsChain(toks, |toks|);
    ExpressionShape(toks, 0);
    var parsed := ExpressionAt(toks, 0).value.0;
    assert toks[0..|toks|] == toks;
    ShapeDeterminesTree(parsed, e);
  }
}
