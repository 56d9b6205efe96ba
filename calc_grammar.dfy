/**
 * The calculator's recursive-descent grammar (calculator/src/parser.cpp) as
 * functions over the token stream the lexer delivers:
 *
 *   expression := term (('+' | '-') term)*
 *   term       := factor (('*' | '/') factor)*
 *   factor     := NUMBER | '(' expression ')'
 *
 * A parser state is the index of `currentToken` in the stream; every function
 * returns the tree it builds and the index of the lookahead token after it, or
 * the error the source throws.
 */
module CalcGrammar {
  import opened Wrappers
  import opened CalcToken
  import opened CalcAst

  /** An index whose token has been read: the lexer did not throw on it. */
  predicate ValidIndex(s: TokenStream, i: nat) {
    i <= |s.toks| && (i == |s.toks| ==> !s.fails)
  }

  /** `currentToken` at index `i`: END once the tokens are used up. */
  function Current(s: TokenStream, i: nat): Token {
    if i < |s.toks| then s.toks[i] else EndToken
  }

  /** `lexer.getNextToken()`: the next index, END again after END, or the lexer's error. */
  function Advance(s: TokenStream, i: nat): (r: Result<nat, Error>)
    requires ValidIndex(s, i)
    ensures r.Ok? ==> ValidIndex(s, r.value) && r.value == (if i < |s.toks| then i + 1 else i)
    ensures r.Err? <==> i + 1 == |s.toks| && s.fails
    ensures r.Err? ==> r.error == InvalidCharacter
  {
    if i == |s.toks| then Ok(i)
    else if i + 1 == |s.toks| && s.fails then Err(InvalidCharacter)
    else Ok(i + 1)
  }

  /** `eat(t)`: advance when the current token has type `t`, otherwise throw "Unexpected token". */
  function Eat(s: TokenStream, i: nat, t: TokenType): (r: Result<nat, Error>)
    requires ValidIndex(s, i)
    ensures Current(s, i).kind != t ==> r == Err(UnexpectedToken)
    ensures r.Ok? ==> Current(s, i).kind == t && ValidIndex(s, r.value) && i <= r.value
    ensures r.Ok? && t != END ==> r.value == i + 1
  {
    if Current(s, i).kind == t then Advance(s, i) else Err(UnexpectedToken)
  }

  /** The number a string of decimal digits denotes. */
  function DecimalValue(ds: string): nat
    requires AllDigits(ds)
  {
    if ds == "" then 0 else DecimalValue(ds[..|ds| - 1]) * 10 + (ds[|ds| - 1] as int - '0' as int)
  }

  /**
   * `std::stoi` on a token's text, for the texts a token can have: a digit run
   * gives its value or throws `out_of_range` above INT_MAX; a text without
   * digits throws `invalid_argument`.
   */
  function Stoi(str: string): (r: Result<int, Error>)
    ensures r.Ok? ==> 0 <= r.value <= IntMax
    ensures r.Err? <==> !(0 < |str| && AllDigits(str) && DecimalValue(str) <= IntMax)
  {
    if |str| == 0 || !AllDigits(str) then Err(InvalidArgument)
    else if DecimalValue(str) > IntMax then Err(OutOfRange)
    else Ok(DecimalValue(str))
  }

  /** `expression()`: a term followed by any number of `+`/`-` terms, grouped to the left. */
  function Expression(s: TokenStream, i: nat): (r: Result<(Node, nat), Error>)
    requires ValidIndex(s, i)
    decreases |s.toks| - i, 2
    ensures r.Ok? ==> i < r.value.1 && ValidIndex(s, r.value.1)
  {
    var first :- Term(s, i);
    ExpressionTail(s, first.0, first.1)
  }

  /** The loop of `expression()`: `node` is the tree built so far. */
  function ExpressionTail(s: TokenStream, node: Node, i: nat): (r: Result<(Node, nat), Error>)
    requires ValidIndex(s, i)
    decreases |s.toks| - i, 3
    ensures r.Ok? ==> i <= r.value.1 && ValidIndex(s, r.value.1)
  {
    var tok := Current(s, i);
    if tok.kind == PLUS || tok.kind == MINUS then
      var j :- Eat(s, i, tok.kind);
      var rhs :- Term(s, j);
      ExpressionTail(s, BinaryOp(tok.value, node, rhs.0), rhs.1)
    else
      Ok((node, i))
  }

  /** `term()`: a factor followed by any number of `*`/`/` factors, grouped to the left. */
  function Term(s: TokenStream, i: nat): (r: Result<(Node, nat), Error>)
    requires ValidIndex(s, i)
    decreases |s.toks| - i, 1
    ensures r.Ok? ==> i < r.value.1 && ValidIndex(s, r.value.1)
  {
    var first :- Factor(s, i);
    TermTail(s, first.0, first.1)
  }

  /** The loop of `term()`: `node` is the tree built so far. */
  function TermTail(s: TokenStream, node: Node, i: nat): (r: Result<(Node, nat), Error>)
    requires ValidIndex(s, i)
    decreases |s.toks| - i, 3
    ensures r.Ok? ==> i <= r.value.1 && ValidIndex(s, r.value.1)
  {
    var tok := Current(s, i);
    if tok.kind == MUL || tok.kind == DIV then
      var j :- Eat(s, i, tok.kind);
      var rhs :- Factor(s, j);
      TermTail(s, BinaryOp(tok.value, node, rhs.0), rhs.1)
    else
      Ok((node, i))
  }

  /** `factor()`: a NUMBER, or a parenthesised expression; anything else is an "Invalid factor". */
  function Factor(s: TokenStream, i: nat): (r: Result<(Node, nat), Error>)
    requires ValidIndex(s, i)
    decreases |s.toks| - i, 0
    ensures r.Ok? ==> i < r.value.1 && ValidIndex(s, r.value.1)
  {
    var tok := Current(s, i);
    if tok.kind == NUMBER then
      var v :- Stoi(tok.value);
      var j :- Eat(s, i, NUMBER);
      Ok((Number(v), j))
    else if tok.kind == LPAREN then
      var j :- Eat(s, i, LPAREN);
      var inner :- Expression(s, j);
      var k :- Eat(s, inner.1, RPAREN);
      Ok((inner.0, k))
    else
      Err(InvalidFactor)
  }

  /**
   * The whole front end on a text: the parser's constructor reads the first
   * token (and throws if the lexer does), then `parse()` reads one expression
   * and ignores whatever follows it.
   */
  function ParseText(stream: TokenStream): Result<Node, Error> {
    if |stream.toks| == 0 && stream.fails then Err(InvalidCharacter)
    else
      var r :- Expression(stream, 0);
      Ok(r.0)
  }
}
