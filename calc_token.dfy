/**
 * Tokens of the integer calculator (calculator/include/token.hpp) and the
 * errors its lexer, parser and evaluator raise as exceptions.
 */
module CalcToken {

  datatype TokenType = PLUS | NUMBER | MINUS | DIV | MUL | LPAREN | RPAREN | END

  /** A token: its type and the characters it was read from. */
  datatype Token = Token(kind: TokenType, value: string)

  /** The runtime errors the calculator throws; each names the source's message. */
  datatype Error =
    | InvalidCharacter        // lexer: "Invalid character"
    | UnexpectedToken         // Parser::eat: "Unexpected token"
    | InvalidFactor           // Parser::factor: "Invalid factor"
    | OutOfRange              // std::stoi on a digit run larger than INT_MAX
    | InvalidArgument         // std::stoi on a string without digits
    | UnknownOperation(op: string)  // evaluate: "Unknown operation" + op

  const EndToken := Token(END, "")

  predicate IsDigit(c: char) { '0' <= c <= '9' }

  predicate AllDigits(s: string) { forall k :: 0 <= k < |s| ==> IsDigit(s[k]) }

  /** The single character that spells each operator or parenthesis token. */
  function Spelling(kind: TokenType): string
    requires kind != NUMBER && kind != END
  {
    match kind
    case PLUS => "+"
    case MINUS => "-"
    case MUL => "*"
    case DIV => "/"
    case LPAREN => "("
    case RPAREN => ")"
  }

  /** A token as the lexer builds it: a non-empty digit run for NUMBER, its spelling otherwise. */
  predicate WellFormed(t: Token) {
    match t.kind
    case NUMBER => |t.value| > 0 && AllDigits(t.value)
    case END => t.value == ""
    case _ => t.value == Spelling(t.kind)
  }

  /**
   * What successive calls of the lexer deliver: the tokens before END, and
   * whether the call after the last of them throws instead of returning END.
   */
  datatype TokenStream = TokenStream(toks: seq<Token>, fails: bool)

  /** The stream with its first `k` tokens taken. */
  function Drop(s: TokenStream, k: nat): (r: TokenStream)
    ensures r.fails == s.fails
    ensures k <= |s.toks| ==> r.toks == s.toks[k..]
    ensures k >= |s.toks| ==> r.toks == []
  {
    TokenStream(if k <= |s.toks| then s.toks[k..] else [], s.fails)
  }
}
