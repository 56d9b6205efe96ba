/**
 * The Kaleidoscope parse functions as the source runs them: they share the
 * global `CurTok`, advance it with `getNextToken` and build their results in
 * loops. The globals become the fields of a `Parser` object: the token list
 * `gettok` would deliver, the index `pos` reached in it, and `curTok`. Each
 * method is proved to do what the function of `KalGrammar` with the same
 * role describes.
 */
module KalParser {
  import opened Wrappers
  import opened KalSyntax
  import opened KalGrammar

  class Parser {
    const toks: seq<Token>
    var pos: nat
    var curTok: Token

    ghost predicate Valid()
      reads this
    {
      pos <= |toks| && curTok == Cur(toks, pos)
    }

    /** A method's result agrees with what the grammar function `spec` yields from the method's start. */
    ghost predicate Follows<T>(r: Option<T>, spec: Option<(T, nat)>)
      reads this
    {
      Valid() &&
      match spec
      case Some(parsed) => r == Some(parsed.0) && pos == parsed.1
      case None => r.None?
    }

    /** The state after `main`'s first `getNextToken`: `CurTok` is the first token. */
    constructor(toks: seq<Token>)
      ensures Valid() && this.toks == toks && pos == 0
    {
      this.toks := toks;
      pos := 0;
      curTok := Cur(toks, 0);
    }

    /** `getNextToken`: `CurTok` becomes the next token, and stays `Eof` at the end. */
    method GetNextToken() returns (t: Token)
      requires Valid()
      modifies this
      ensures Valid() && pos == Next(toks, old(pos)) && t == curTok
    {
      pos := if pos < |toks| then pos + 1 else pos;
      curTok := Cur(toks, pos);
      t := curTok;
    }

    /** `GetTokPrecedence`: the precedence of `CurTok`. */
    method GetTokPrecedence() returns (p: int)
      requires Valid()
      ensures p == Precedence(curTok)
    {
      if curTok.Char? {
        match curTok.c
        case '<' => p := 10;
        case '>' => p := 10;
        case '+' => p := 20;
        case '-' => p := 20;
        case '*' => p := 40;
        case '/' => p := 40;
        case _ => p := -1;
      } else {
        p := -1;
      }
    }

    /** `ParseNumberExpr`. */
    method ParseNumberExpr() returns (r: Option<Expr>)
      requires Valid() && curTok.Number?
      modifies this
      ensures Follows(r, NumberAt(toks, old(pos)))
    {
      r := Some(NumberExpr(curTok.val));
      var _ := GetNextToken();
    }

    /** `ParseExpression`. */
    method ParseExpression() returns (r: Option<Expr>)
      requires Valid()
      modifies this
      decreases |toks| - pos, 3
      ensures Follows(r, ExpressionAt(toks, old(pos)))
    {
      var lhs := ParsePrimary();
      if lhs.None? {
        return None;
      }
      r := ParseBinOpRHS(0, lhs.value);
    }

    /** `ParseIdentifierExpr`, with its argument loop growing `args`. */
    method ParseIdentifierExpr() returns (r: Option<Expr>)
      requires Valid() && curTok.Identifier?
      modifies this
      decreases |toks| - pos, 1
      ensures Follows(r, IdentifierAt(toks, old(pos)))
    {
      var idName := curTok.name;
      var _ := GetNextToken();
      if curTok != Char('(') {
        return Some(VariableExpr(idName));
      }
      var _ := GetNextToken();
      var args: seq<Expr> := [];
      if curTok != Char(')') {
        ghost var start := pos;
        while true
          invariant Valid() && start <= pos
          invariant ArgsAt(toks, start, []) == ArgsAt(toks, pos, args)
          decreases |toks| - pos
        {
          var arg := ParseExpression();
          if arg.None? {
            return None;
          }
          args := args + [arg.value];
          if curTok == Char(')') {
            break;
          }
          if curTok != Char(',') {
            return None;
          }
          var _ := GetNextToken();
        }
      }
      var _ := GetNextToken();
      return Some(CallExpr(idName, args));
    }

    /** `ParsePrimary`. */
    method ParsePrimary() returns (r: Option<Expr>)
      requires Valid()
      modifies this
      decreases |toks| - pos, 2
      ensures Follows(r, PrimaryAt(toks, old(pos)))
    {
      if curTok.Identifier? {
        r := ParseIdentifierExpr();
      } else if curTok.Number? {
        r := ParseNumberExpr();
      } else if curTok == Char('(') {
        r := ParseParenExpr();
      } else {
        r := None;
      }
    }

    /** `ParseParenExpr`, with the source's inverted test on `)`. */
    method ParseParenExpr() returns (r: Option<Expr>)
      requires Valid() && curTok == Char('(')
      modifies this
      decreases |toks| - pos, 1
      ensures Follows(r, ParenAt(toks, old(pos)))
    {
      var _ := GetNextToken();
      var v := ParseExpression();
      if v.None? {
        return None;
      }
      if curTok != Char(')') {
        var _ := GetNextToken();
        return v;
      } else {
        return None;
      }
    }

    /** `ParseBinOpRHS`: the `while (true)` loop reassigning the left operand. */
    method ParseBinOpRHS(exprPrec: int, lhs0: Expr) returns (r: Option<Expr>)
      requires Valid() && 0 <= exprPrec
      modifies this
      decreases |toks| - pos, 3
      ensures Follows(r, BinOpRHSAt(toks, exprPrec, lhs0, old(pos)))
    {
      var lhs := lhs0;
      while true
        invariant Valid() && old(pos) <= pos
        invariant BinOpRHSAt(toks, exprPrec, lhs0, old(pos)) == BinOpRHSAt(toks, exprPrec, lhs, pos)
        decreases |toks| - pos
      {
        var tokPrec := GetTokPrecedence();
        if tokPrec < exprPrec {
          return Some(lhs);
        }
        var binOp := curTok.c;
        var _ := GetNextToken();
        var rhs := ParsePrimary();
        if rhs.None? {
          return None;
        }
        var nextPrec := GetTokPrecedence();
        if tokPrec < nextPrec {
          rhs := ParseBinOpRHS(tokPrec + 1, rhs.value);
          if rhs.None? {
            return None;
          }
        }
        lhs := BinaryExpr(binOp, lhs, rhs.value);
      }
    }

    /** `ParseTopLevelExpr`. */
    method ParseTopLevelExpr() returns (r: Option<Function>)
      requires Valid()
      modifies this
      ensures Follows(r, TopLevelAt(toks, old(pos)))
    {
      var e := ParseExpression();
      if e.Some? {
        var proto := Prototype("", []);
        return Some(Function(proto, e.value));
      }
      return None;
    }
  }
}
