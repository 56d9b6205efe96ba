/**
 * The Kaleidoscope expression parser (llvm-first-lang/my-lang.cc) as
 * functions over the token list `gettok` would deliver. The global `CurTok`
 * is the token at index `pos`; once the list is used up it is `Eof`, and
 * further calls of `getNextToken` return `Eof` again. Each function returns
 * the tree it builds and the index of `CurTok` after it, or `None` where the
 * source returns a null pointer (after `LogError`).
 */
module KalGrammar {
  import opened Wrappers
  import opened KalSyntax

  /** `CurTok` when the parser stands at `pos`. */
  function Cur(toks: seq<Token>, pos: nat): Token {
    if pos < |toks| then toks[pos] else Eof
  }

  /** `getNextToken`: one token further, or `Eof` again at the end. */
  function Next(toks: seq<Token>, pos: nat): (q: nat)
    requires pos <= |toks|
    ensures pos <= q <= |toks|
    ensures q == pos <==> pos == |toks|
  {
    if pos < |toks| then pos + 1 else pos
  }

  /** `ParseNumberExpr`: the number in `CurTok`, then one token further. */
  function NumberAt(toks: seq<Token>, pos: nat): Option<(Expr, nat)>
    requires pos < |toks| && toks[pos].Number?
  {
    Some((NumberExpr(toks[pos].val), pos + 1))
  }

  /**
   * `ParseIdentifierExpr`: an identifier alone is a variable; followed by `(`
   * it is a call, whose arguments `ArgsAt` reads up to the closing `)`.
   */
  function IdentifierAt(toks: seq<Token>, pos: nat): (r: Option<(Expr, nat)>)
    requires pos < |toks| && toks[pos].Identifier?
    decreases |toks| - pos, 1
    ensures r.Some? ==> pos < r.value.1 <= |toks|
  {
    var name := toks[pos].name;
    if Cur(toks, pos + 1) != Char('(') then
      Some((VariableExpr(name), pos + 1))
    else if Cur(toks, pos + 2) == Char(')') then
      Some((CallExpr(name, []), pos + 3))
    else
      var args :- ArgsAt(toks, pos + 2, []);
      Some((CallExpr(name, args.0), args.1 + 1))
  }

  /**
   * The argument loop of `ParseIdentifierExpr`: `acc` holds the arguments read
   * so far; an expression is read and appended, then `)` ends the list, `,`
   * continues it and any other token is an error. The result is the list and
   * the index of the closing `)`, not yet eaten.
   */
  function ArgsAt(toks: seq<Token>, pos: nat, acc: seq<Expr>): (r: Option<(seq<Expr>, nat)>)
    requires pos <= |toks|
    decreases |toks| - pos, 4
    ensures r.Some? ==> pos < r.value.1 < |toks| && toks[r.value.1] == Char(')')
    ensures r.Some? ==> |acc| < |r.value.0| && r.value.0[..|acc|] == acc
  {
    var arg :- ExpressionAt(toks, pos);
    var args := acc + [arg.0];
    var t := Cur(toks, arg.1);
    if t == Char(')') then Some((args, arg.1))
    else if t != Char(',') then None
    else ArgsAt(toks, arg.1 + 1, args)
  }

  /**
   * `ParseParenExpr` as the source has it: after `(` and an expression, the
   * test is inverted, so a `)` is an error and any other token is eaten in
   * its place.
   */
  function ParenAt(toks: seq<Token>, pos: nat): (r: Option<(Expr, nat)>)
    requires pos < |toks| && toks[pos] == Char('(')
    decreases |toks| - pos, 1
    ensures r.Some? ==> pos < r.value.1 <= |toks|
  {
    var v :- ExpressionAt(toks, pos + 1);
    if Cur(toks, v.1) != Char(')') then Some((v.0, Next(toks, v.1)))
    else None
  }

  /** `ParsePrimary`: an identifier, a number or `(`; any other token is an error. */
  function PrimaryAt(toks: seq<Token>, pos: nat): (r: Option<(Expr, nat)>)
    requires pos <= |toks|
    decreases |toks| - pos, 2
    ensures r.Some? ==> pos < r.value.1 <= |toks|
  {
    var t := Cur(toks, pos);
    if t.Identifier? then IdentifierAt(toks, pos)
    else if t.Number? then NumberAt(toks, pos)
    else if t == Char('(') then ParenAt(toks, pos)
    else None
  }

  /**
   * `ParseExpression`: a primary, then `ParseBinOpRHS` at threshold 0. The
   * expression ends exactly at the first token after an operand that is not
   * a binary operator.
   */
  function ExpressionAt(toks: seq<Token>, pos: nat): (r: Option<(Expr, nat)>)
    requires pos <= |toks|
    decreases |toks| - pos, 3
    ensures r.Some? ==> pos < r.value.1 <= |toks| && Precedence(Cur(toks, r.value.1)) < 0
  {
    var lhs :- PrimaryAt(toks, pos);
    BinOpRHSAt(toks, 0, lhs.0, lhs.1)
  }

  /**
   * `ParseBinOpRHS(ExprPrec, LHS)`: while `CurTok` is an operator binding at
   * least as tightly as `exprPrec`, read it and a primary; if the operator
   * after that primary binds strictly tighter, the primary first absorbs it
   * by a recursive call at threshold `TokPrec + 1`. Then `lhs` becomes the
   * operator node and the loop goes on. It stops at the first token below
   * the threshold.
   */
  function BinOpRHSAt(toks: seq<Token>, exprPrec: int, lhs: Expr, pos: nat): (r: Option<(Expr, nat)>)
    requires 0 <= exprPrec && pos <= |toks|
    decreases |toks| - pos, 3
    ensures r.Some? ==> pos <= r.value.1 <= |toks| && Precedence(Cur(toks, r.value.1)) < exprPrec
  {
    var tokPrec := Precedence(Cur(toks, pos));
    if tokPrec < exprPrec then Some((lhs, pos))
    else
      var binOp := toks[pos].c;
      var rhs :- PrimaryAt(toks, pos + 1);
      var rhs2 :-
        if tokPrec < Precedence(Cur(toks, rhs.1)) then BinOpRHSAt(toks, tokPrec + 1, rhs.0, rhs.1)
        else Some(rhs);
      BinOpRHSAt(toks, exprPrec, BinaryExpr(binOp, lhs, rhs2.0), rhs2.1)
  }

  /**
   * `ParseTopLevelExpr`: an expression wrapped as the body of an anonymous
   * function, with name "" and no parameters.
   */
  function TopLevelAt(toks: seq<Token>, pos: nat): (r: Option<(Function, nat)>)
    requires pos <= |toks|
    ensures r.None? <==> ExpressionAt(toks, pos).None?
    ensures r.Some? ==> r.value.0.proto == Prototype("", []) &&
                        ExpressionAt(toks, pos) == Some((r.value.0.body, r.value.1))
  {
    var e :- ExpressionAt(toks, pos);
    Some((Function(Prototype("", []), e.0), e.1))
  }
}
