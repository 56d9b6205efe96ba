/**
 * Tokens and syntax trees of the Kaleidoscope front end
 * (llvm-first-lang/my-lang.cc), and its binary-operator precedence table.
 */
module KalSyntax {

  /**
   * What `gettok` hands to the parser: the named token kinds, with the
   * identifier text (`IdentifierStr`) or the number (`NumVal`) they carry,
   * and any other character as itself.
   */
  datatype Token =
    | Eof
    | Def
    | Extern
    | Identifier(name: string)
    | Number(val: real)
    | Char(c: char)

  /** `NumberExprAST`, `VariableExprAST`, `BinaryExprAST` and `CallExprAST`. */
  datatype Expr =
    | NumberExpr(val: real)
    | VariableExpr(name: string)
    | BinaryExpr(op: char, lhs: Expr, rhs: Expr)
    | CallExpr(callee: string, args: seq<Expr>)

  /** `PrototypeAST`: a function's name and parameter names. */
  datatype Prototype = Prototype(name: string, params: seq<string>)

  /** `FunctionAST`: a prototype and a body. */
  datatype Function = Function(proto: Prototype, body: Expr)

  /** The characters that are binary operators. */
  predicate IsBinOpChar(c: char) {
    c == '<' || c == '>' || c == '+' || c == '-' || c == '*' || c == '/'
  }

  /**
   * `GetTokPrecedence` on a token: comparisons bind loosest, then `+ -`,
   * then `* /`; every other token is -1, below any threshold the parser uses.
   */
  function Precedence(t: Token): (p: int)
    ensures p >= 0 <==> t.Char? && IsBinOpChar(t.c)
    ensures p == -1 || p == 10 || p == 20 || p == 40
  {
    if t.Char? then
      match t.c
      case '<' => 10
      case '>' => 10
      case '+' => 20
      case '-' => 20
      case '*' => 40
      case '/' => 40
      case _ => -1
    else -1
  }

  /** The table, entry by entry. */
  lemma PrecedenceTable()
    ensures Precedence(Char('<')) == 10 && Precedence(Char('>')) == 10
    ensures Precedence(Char('+')) == 20 && Precedence(Char('-')) == 20
    ensures Precedence(Char('*')) == 40 && Precedence(Char('/')) == 40
    ensures forall t: Token :: !(t.Char? && IsBinOpChar(t.c)) ==> Precedence(t) == -1
    ensures Precedence(Char('<')) < Precedence(Char('+')) < Precedence(Char('*'))
  {
  }
}
