/**
 * What the calculator's grammar promises: the shape of the trees it builds
 * (left grouping, `*` and `/` binding tighter than `+` and `-`), its error
 * cases, and that every tree it builds is one `evaluate` can handle.
 */
module CalcGrammarProps {
  import opened Wrappers
  import opened CalcToken
  import opened CalcAst
  import opened CalcGrammar

  function Num(digits: string): Token { Token(NUMBER, digits) }
  const Plus := Token(PLUS, "+")
  const Minus := Token(MINUS, "-")
  const Times := Token(MUL, "*")
  const LParen := Token(LPAREN, "(")
  const RParen := Token(RPAREN, ")")

  /** The stream of a text that lexes without error. */
  function Clean(toks: seq<Token>): TokenStream { TokenStream(toks, false) }

  /** "3 + 4 * 2" parses as 3 + (4 * 2). */
  lemma MulBindsTighterThanAdd()
    ensures ParseText(Clean([Num("3"), Plus, Num("4"), Times, Num("2")])) ==
            Ok(BinaryOp("+", Number(3), BinaryOp("*", Number(4), Number(2))))
  {
    var s := Clean([Num("3"), Plus, Num("4"), Times, Num("2")]);
    assert Stoi("3") == Ok(3) && Stoi("4") == Ok(4) && Stoi("2") == Ok(2);
    assert TermTail(s, Number(2), 5) == Ok((Number(2), 5));
    assert TermTail(s, Number(4), 3) == Ok((BinaryOp("*", Number(4), Number(2)), 5));
    assert Term(s, 2) == Ok((BinaryOp("*", Number(4), Number(2)), 5));
    assert Term(s, 0) == Ok((Number(3), 1));
    var product := BinaryOp("*", Number(4), Number(2));
    assert ExpressionTail(s, BinaryOp("+", Number(3), product), 5) == Ok((BinaryOp("+", Number(3), product), 5));
    assert ExpressionTail(s, Number(3), 1) == Ok((BinaryOp("+", Number(3), product), 5));
    assert Expression(s, 0) == Ok((BinaryOp("+", Number(3), product), 5));
  }

  /** "2 - 3 - 4" parses as (2 - 3) - 4. */
  lemma SubtractionGroupsLeft()
    ensures ParseText(Clean([Num("2"), Minus, Num("3"), Minus, Num("4")])) ==
            Ok(BinaryOp("-", BinaryOp("-", Number(2), Number(3)), Number(4)))
  {
    var s := Clean([Num("2"), Minus, Num("3"), Minus, Num("4")]);
    assert Stoi("3") == Ok(3) && Stoi("4") == Ok(4) && Stoi("2") == Ok(2);
    assert Term(s, 4) == Ok((Number(4), 5));
    assert Term(s, 2) == Ok((Number(3), 3));
    assert Term(s, 0) == Ok((Number(2), 1));
    var whole := BinaryOp("-", BinaryOp("-", Number(2), Number(3)), Number(4));
    assert ExpressionTail(s, whole, 5) == Ok((whole, 5));
    assert ExpressionTail(s, BinaryOp("-", Number(2), Number(3)), 3) == Ok((whole, 5));
    assert ExpressionTail(s, Number(2), 1) == Ok((whole, 5));
    assert Expression(s, 0) == Ok((whole, 5));
  }

  /** "(3 + 4) * 2" parses with the parenthesised sum as the left operand of `*`. */
  lemma ParenthesesGroup()
    ensures ParseText(Clean([LParen, Num("3"), Plus, Num("4"), RParen, Times, Num("2")])) ==
            Ok(BinaryOp("*", BinaryOp("+", Number(3), Number(4)), Number(2)))
  {
    var s := Clean([LParen, Num("3"), Plus, Num("4"), RParen, Times, Num("2")]);
    var sum := BinaryOp("+", Number(3), Number(4));
    assert Stoi("3") == Ok(3) && Stoi("4") == Ok(4) && Stoi("2") == Ok(2);
    assert Term(s, 3) == Ok((Number(4), 4));
    assert Term(s, 1) == Ok((Number(3), 2));
    assert ExpressionTail(s, sum, 4) == Ok((sum, 4));
    assert ExpressionTail(s, Number(3), 2) == Ok((sum, 4));
    assert Expression(s, 1) == Ok((sum, 4));
    assert Factor(s, 0) == Ok((sum, 5));
    assert Factor(s, 6) == Ok((Number(2), 7));
    var whole := BinaryOp("*", sum, Number(2));
    assert TermTail(s, whole, 7) == Ok((whole, 7));
    assert TermTail(s, sum, 5) == Ok((whole, 7));
    assert Term(s, 0) == Ok((whole, 7));
    assert ExpressionTail(s, whole, 7) == Ok((whole, 7));
    assert Expression(s, 0) == Ok((whole, 7));
  }

  /** `parse` does not ask for END: in "3 4" the second number is left unread. */
  lemma TrailingTokensIgnored()
    ensures Expression(Clean([Num("3"), Num("4")]), 0) == Ok((Number(3), 1))
    ensures ParseText(Clean([Num("3"), Num("4")])) == Ok(Number(3))
  {
    assert Stoi("3") == Ok(3);
  }

  /** A leading `-` is not a factor: there is no unary minus. */
  lemma {:induction false} LeadingMinusIsInvalidFactor(s: TokenStream, i: nat)
    requires ValidIndex(s, i) && Current(s, i).kind == MINUS
    ensures Expression(s, i) == Err(InvalidFactor)
  {
    assert Factor(s, i) == Err(InvalidFactor);
  }

  /** Any token but NUMBER or `(` where a factor is expected throws "Invalid factor". */
  lemma FactorRejectsOtherTokens(s: TokenStream, i: nat)
    requires ValidIndex(s, i) && Current(s, i).kind != NUMBER && Current(s, i).kind != LPAREN
    ensures Factor(s, i) == Err(InvalidFactor)
    ensures Term(s, i) == Err(InvalidFactor) && Expression(s, i) == Err(InvalidFactor)
  {
  }

  /** A parenthesised expression not followed by `)` makes `eat(RPAREN)` throw "Unexpected token". */
  lemma {:induction false} MissingCloseParen(s: TokenStream, i: nat)
    requires ValidIndex(s, i) && Current(s, i).kind == LPAREN
    requires Advance(s, i).Ok? && Expression(s, i + 1).Ok?
    requires Current(s, Expression(s, i + 1).value.1).kind != RPAREN
    ensures Factor(s, i) == Err(UnexpectedToken)
  {
    assert Eat(s, i, LPAREN) == Ok(i + 1);
  }

  /** "(3 + 4" with nothing after it: the missing `)` is an "Unexpected token". */
  lemma UnbalancedParenthesis()
    ensures ParseText(Clean([LParen, Num("3"), Plus, Num("4")])) == Err(UnexpectedToken)
  {
    var s := Clean([LParen, Num("3"), Plus, Num("4")]);
    assert Stoi("3") == Ok(3) && Stoi("4") == Ok(4);
    assert Term(s, 3) == Ok((Number(4), 4));
    assert Term(s, 1) == Ok((Number(3), 2));
    var sum := BinaryOp("+", Number(3), Number(4));
    assert ExpressionTail(s, sum, 4) == Ok((sum, 4));
    assert ExpressionTail(s, Number(3), 2) == Ok((sum, 4));
    assert Expression(s, 1) == Ok((sum, 4));
    MissingCloseParen(s, 0);
    assert Term(s, 0) == Err(UnexpectedToken);
  }

  /** Every number in the tree is one `stoi` can return. */
  predicate NumbersInRange(e: Node) {
    match e
    case Number(v) => 0 <= v <= IntMax
    case BinaryOp(_, l, r) => NumbersInRange(l) && NumbersInRange(r)
  }

  /** The tokens the lexer can produce: each well formed. */
  predicate WellFormedStream(s: TokenStream) {
    forall k :: 0 <= k < |s.toks| ==> WellFormed(s.toks[k])
  }

  /** A tree the parser builds from well-formed tokens: known operators and numbers in `int` range. */
  predicate Buildable(e: Node) { KnownOps(e) && NumbersInRange(e) }

  /**
   * The grammar only ever builds trees whose operators are `+ - * /` and whose
   * numbers are non-negative `int`s: `evaluate` never throws "Unknown
   * operation" on what `parse` returns.
   */
  lemma {:induction false} ExpressionBuildable(s: TokenStream, i: nat)
    requires WellFormedStream(s) && ValidIndex(s, i)
    ensures Expression(s, i).Ok? ==> Buildable(Expression(s, i).value.0)
    decreases |s.toks| - i, 2
  {
    if Term(s, i).Ok? {
      TermBuildable(s, i);
      ExpressionTailBuildable(s, Term(s, i).value.0, Term(s, i).value.1);
    }
  }

  lemma {:induction false} ExpressionTailBuildable(s: TokenStream, node: Node, i: nat)
    requires WellFormedStream(s) && ValidIndex(s, i) && Buildable(node)
    ensures ExpressionTail(s, node, i).Ok? ==> Buildable(ExpressionTail(s, node, i).value.0)
    decreases |s.toks| - i, 3
  {
    var tok := Current(s, i);
    if (tok.kind == PLUS || tok.kind == MINUS) && Eat(s, i, tok.kind).Ok? {
      var j := Eat(s, i, tok.kind).value;
      if Term(s, j).Ok? {
        TermBuildable(s, j);
        var rhs := Term(s, j).value;
        ExpressionTailBuildable(s, BinaryOp(tok.value, node, rhs.0), rhs.1);
      }
    }
  }

  lemma {:induction false} TermBuildable(s: TokenStream, i: nat)
    requires WellFormedStream(s) && ValidIndex(s, i)
    ensures Term(s, i).Ok? ==> Buildable(Term(s, i).value.0)
    decreases |s.toks| - i, 1
  {
    if Factor(s, i).Ok? {
      FactorBuildable(s, i);
      TermTailBuildable(s, Factor(s, i).value.0, Factor(s, i).value.1);
    }
  }

  lemma {:induction false} TermTailBuildable(s: TokenStream, node: Node, i: nat)
    requires WellFormedStream(s) && ValidIndex(s, i) && Buildable(node)
    ensures TermTail(s, node, i).Ok? ==> Buildable(TermTail(s, node, i).value.0)
    decreases |s.toks| - i, 3
  {
    var tok := Current(s, i);
    if (tok.kind == MUL || tok.kind == DIV) && Eat(s, i, tok.kind).Ok? {
      var j := Eat(s, i, tok.kind).value;
      if Factor(s, j).Ok? {
        FactorBuildable(s, j);
        var rhs := Factor(s, j).value;
        TermTailBuildable(s, BinaryOp(tok.value, node, rhs.0), rhs.1);
      }
    }
  }

  lemma {:induction false} FactorBuildable(s: TokenStream, i: nat)
    requires WellFormedStream(s) && ValidIndex(s, i)
    ensures Factor(s, i).Ok? ==> Buildable(Factor(s, i).value.0)
    decreases |s.toks| - i, 0
  {
    if Current(s, i).kind == LPAREN && Eat(s, i, LPAREN).Ok? {
      ExpressionBuildable(s, i + 1);
    }
  }
}
