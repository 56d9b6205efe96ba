/**
 * The calculator's lexer (calculator/src/lexer.cpp): a cursor over the input
 * text that hands out one token per call.
 *
 * `NextToken` is the token a call of `getNextToken` returns from a cursor
 * position, and `LexStream` the whole sequence of tokens that successive calls
 * return. The class `Lexer` is the object the source mutates, proved to follow
 * `NextToken` call by call.
 */
module CalcLexer {
  import opened CalcToken
  import opened Wrappers

  /** The character the C++ string yields past its last character. */
  const NUL: char := '\0'

  /** `std::isspace` in the C locale: space, tab, newline, vertical tab, form feed, carriage return. */
  predicate IsSpace(c: char) { c == ' ' || '\t' <= c <= '\r' }

  /** The character under the cursor: `text[pos]`, or NUL at and past the end. */
  function CharAt(text: string, pos: nat): char {
    if pos < |text| then text[pos] else NUL
  }

  /** The token type of a one-character operator or parenthesis. */
  function OperatorKind(c: char): (r: Option<TokenType>)
    ensures r.Some? ==> r.value != NUMBER && r.value != END && Spelling(r.value) == [c]
    ensures r.Some? <==> c in "+-*/()"
  {
    match c
    case '+' => Some(PLUS)
    case '-' => Some(MINUS)
    case '*' => Some(MUL)
    case '/' => Some(DIV)
    case '(' => Some(LPAREN)
    case ')' => Some(RPAREN)
    case _ => None
  }

  /** The characters the lexer accepts. */
  predicate Lexable(c: char) { IsSpace(c) || IsDigit(c) || OperatorKind(c).Some? }

  /**
   * The run of consecutive digits that starts at `pos`: what `integer()`
   * collects. It is maximal: the character after it is not a digit.
   */
  function DigitRun(text: string, pos: nat): (r: string)
    decreases |text| - pos
    ensures AllDigits(r)
    ensures r == [] || pos + |r| <= |text|
    ensures forall k :: 0 <= k < |r| ==> text[pos + k] == r[k]
    ensures !IsDigit(CharAt(text, pos + |r|))
  {
    if IsDigit(CharAt(text, pos)) then [text[pos]] + DigitRun(text, pos + 1) else []
  }

  /** What one call of `getNextToken` does from a cursor position. */
  datatype LexResult =
    | Lexed(tok: Token, next: nat)   // the token returned and the cursor after it
    | LexFailed(at: nat)             // "Invalid character" thrown with the cursor on it

  /**
   * The result of `getNextToken` with the cursor at `pos`: whitespace is
   * skipped, a digit starts a NUMBER, an operator or parenthesis is one token,
   * NUL (the end of the text) gives END, and anything else throws.
   */
  function NextToken(text: string, pos: nat): (r: LexResult)
    decreases |text| - pos
    ensures r.Lexed? ==> pos <= r.next && WellFormed(r.tok)
    ensures r.Lexed? && r.tok.kind != END ==> pos < r.next <= |text|
    ensures r.Lexed? && r.tok.kind == END ==> r.tok == EndToken && CharAt(text, r.next) == NUL
    ensures r.Lexed? && r.tok.kind == NUMBER ==> !IsDigit(CharAt(text, r.next))
    ensures r.LexFailed? ==> pos <= r.at < |text| && !Lexable(text[r.at])
  {
    var c := CharAt(text, pos);
    if c == NUL then Lexed(EndToken, pos)
    else if IsSpace(c) then NextToken(text, pos + 1)
    else if IsDigit(c) then
      var run := DigitRun(text, pos);
      Lexed(Token(NUMBER, run), pos + |run|)
    else
      match OperatorKind(c)
      case Some(kind) => Lexed(Token(kind, [c]), pos + 1)
      case None => LexFailed(pos)
  }

  /**
   * The tokens successive calls of `getNextToken` return from `pos`, up to
   * END, and whether the lexer throws after them instead.
   */
  function LexStream(text: string, pos: nat): (s: TokenStream)
    decreases |text| - pos
    ensures forall k :: 0 <= k < |s.toks| ==> WellFormed(s.toks[k]) && s.toks[k].kind != END
  {
    match NextToken(text, pos)
    case LexFailed(_) => TokenStream([], true)
    case Lexed(t, next) =>
      if t.kind == END then TokenStream([], false)
      else
        var rest := LexStream(text, next);
        TokenStream([t] + rest.toks, rest.fails)
  }

  /** The lexer object: the input text and a cursor with its current character. */
  class Lexer {
    const text: string
    var pos: nat
    var current: char

    ghost predicate Valid()
      reads this
    {
      current == CharAt(text, pos)
    }

    constructor (input: string)
      ensures Valid() && text == input && pos == 0
    {
      text := input;
      pos := 0;
      current := if 0 < |input| then input[0] else NUL;
    }

    /** Moves the cursor one character on. */
    method Advance()
      modifies this
      ensures pos == old(pos) + 1
      ensures current == CharAt(text, pos)
    {
      pos := pos + 1;
      if pos >= |text| {
        current := NUL;
      } else {
        current := text[pos];
      }
    }

    /** Collects the digit run under the cursor and leaves the cursor on the first non-digit. */
    method Integer() returns (result: string)
      requires Valid()
      modifies this
      ensures Valid()
      ensures result == DigitRun(text, old(pos))
      ensures pos == old(pos) + |result|
    {
      result := "";
      while IsDigit(current)
        invariant Valid()
        invariant pos == old(pos) + |result|
        invariant result + DigitRun(text, pos) == DigitRun(text, old(pos))
        decreases |text| - pos
      {
        result := result + [current];
        Advance();
      }
    }

    /** Returns the next token, or the error thrown on a character it does not accept. */
    method GetNextToken() returns (r: Result<Token, Error>)
      requires Valid()
      modifies this
      ensures Valid()
      ensures match NextToken(text, old(pos))
              case Lexed(t, next) => r == Ok(t) && pos == next
              case LexFailed(at) => r == Err(InvalidCharacter) && pos == at
    {
      while current != NUL
        invariant Valid()
        invariant NextToken(text, pos) == NextToken(text, old(pos))
        decreases |text| - pos
      {
        if IsSpace(current) {
          Advance();
          continue;
        }
        if IsDigit(current) {
          var digits := Integer();
          return Ok(Token(NUMBER, digits));
        }
        if current == '+' {
          Advance();
          return Ok(Token(PLUS, "+"));
        }
        if current == '-' {
          Advance();
          return Ok(Token(MINUS, "-"));
        }
        if current == '*' {
          Advance();
          return Ok(Token(MUL, "*"));
        }
        if current == '/' {
          Advance();
          return Ok(Token(DIV, "/"));
        }
        if current == '(' {
          Advance();
          return Ok(Token(LPAREN, "("));
        }
        if current == ')' {
          Advance();
          return Ok(Token(RPAREN, ")"));
        }
        return Err(InvalidCharacter);
      }
      return Ok(EndToken);
    }
  }
}
