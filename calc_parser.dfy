/**
 * The calculator's `Parser` object (calculator/src/parser.cpp): it owns a
 * reference to the lexer and one token of lookahead, `currentToken`, and each
 * of its methods is proved to do what the grammar functions of `CalcGrammar`
 * describe. The ghost fields `stream` (every token the lexer will hand out)
 * and `index` (the position of `currentToken` in it) tie the two together.
 */
module CalcParser {
  import opened Wrappers
  import opened CalcToken
  import opened CalcAst
  import opened CalcLexer
  import opened CalcEval
  import CalcGrammar

  /** What the lexer's next call does, read off the stream it still has to deliver. */
  lemma LexStreamAhead(text: string, pos: nat, s: TokenStream, k: nat)
    requires LexStream(text, pos) == Drop(s, k)
    ensures match NextToken(text, pos)
            case LexFailed(_) => s.fails && k >= |s.toks|
            case Lexed(t, next) =>
              if t.kind == END then
                !s.fails && k >= |s.toks| && LexStream(text, next) == Drop(s, k + 1)
              else
                k < |s.toks| && s.toks[k] == t && LexStream(text, next) == Drop(s, k + 1)
  {
    match NextToken(text, pos)
    case LexFailed(_) =>
    case Lexed(t, next) =>
      if t.kind == END {
        assert NextToken(text, next) == Lexed(EndToken, next);
      } else {
        assert s.toks[k..][1..] == s.toks[k + 1..];
      }
  }

  class Parser {
    const lexer: Lexer
    var currentToken: Token
    /** Every token the lexer hands out from the parser's construction on. */
    ghost const stream: TokenStream
    /** The position of `currentToken` in `stream`. */
    ghost var index: nat

    ghost predicate Valid()
      reads this, lexer
    {
      lexer.Valid() &&
      CalcGrammar.ValidIndex(stream, index) &&
      currentToken == CalcGrammar.Current(stream, index) &&
      LexStream(lexer.text, lexer.pos) == Drop(stream, index + 1)
    }

    /** A method's result agrees with what the grammar function `spec` yields from the method's start. */
    ghost predicate Follows(r: Result<Node, Error>, spec: Result<(Node, nat), Error>)
      reads this, lexer
    {
      match spec
      case Ok(parsed) => r == Ok(parsed.0) && Valid() && index == parsed.1
      case Err(e) => r == Err(e)
    }

    constructor Init(lexer: Lexer, first: Token, ghost stream: TokenStream)
      ensures this.lexer == lexer && currentToken == first && this.stream == stream && index == 0
    {
      this.lexer := lexer;
      currentToken := first;
      this.stream := stream;
      index := 0;
    }

    /** The constructor `Parser(lexer)`: primes `currentToken` with the lexer's first token, or throws with the lexer. */
    static method Create(lexer: Lexer) returns (r: Result<Parser, Error>)
      requires lexer.Valid()
      modifies lexer
      ensures r.Err? <==> |old(LexStream(lexer.text, lexer.pos)).toks| == 0 && old(LexStream(lexer.text, lexer.pos)).fails
      ensures r.Err? ==> r.error == InvalidCharacter
      ensures r.Ok? ==> fresh(r.value) && r.value.lexer == lexer && r.value.Valid() &&
                        r.value.stream == old(LexStream(lexer.text, lexer.pos)) && r.value.index == 0
    {
      ghost var s := LexStream(lexer.text, lexer.pos);
      LexStreamAhead(lexer.text, lexer.pos, s, 0);
      var first := lexer.GetNextToken();
      if first.Err? {
        return Err(first.error);
      }
      var p := new Parser.Init(lexer, first.value, s);
      r := Ok(p);
    }

    /** `eat(t)`: reads the next token when `currentToken` has type `t`; otherwise throws and changes nothing. */
    method Eat(t: TokenType) returns (r: Outcome<Error>)
      requires Valid()
      modifies this, lexer
      ensures match CalcGrammar.Eat(stream, old(index), t)
              case Ok(j) => r == Pass && Valid() && index == j
              case Err(e) => r == Fail(e)
      ensures old(currentToken.kind) != t ==> unchanged(this, lexer)
    {
      if currentToken.kind == t {
        LexStreamAhead(lexer.text, lexer.pos, stream, index + 1);
        var next := lexer.GetNextToken();
        match next
        case Err(e) =>
          r := Fail(e);
        case Ok(tok) =>
          currentToken := tok;
          index := if index < |stream.toks| then index + 1 else index;
          r := Pass;
      } else {
        r := Fail(UnexpectedToken);
      }
    }

    /** `expression()`: a term, then `+`/`-` terms folded into a left-leaning tree. */
    method Expression() returns (r: Result<Node, Error>)
      requires Valid()
      modifies this, lexer
      decreases |stream.toks| - index, 2
      ensures Follows(r, CalcGrammar.Expression(stream, old(index)))
    {
      var node :- Term();
      while currentToken.kind == PLUS || currentToken.kind == MINUS
        invariant Valid()
        invariant CalcGrammar.Expression(stream, old(index)) == CalcGrammar.ExpressionTail(stream, node, index)
        decreases |stream.toks| - index
      {
        var op := currentToken.value;
        var eaten := Eat(currentToken.kind);
        if eaten.Fail? {
          return Err(eaten.error);
        }
        var rhs :- Term();
        node := BinaryOp(op, node, rhs);
      }
      return Ok(node);
    }

    /** `term()`: a factor, then `*`/`/` factors folded into a left-leaning tree. */
    method Term() returns (r: Result<Node, Error>)
      requires Valid()
      modifies this, lexer
      decreases |stream.toks| - index, 1
      ensures Follows(r, CalcGrammar.Term(stream, old(index)))
    {
      var node :- Factor();
      while currentToken.kind == MUL || currentToken.kind == DIV
        invariant Valid()
        invariant CalcGrammar.Term(stream, old(index)) == CalcGrammar.TermTail(stream, node, index)
        decreases |stream.toks| - index
      {
        var op := currentToken.value;
        var eaten := Eat(currentToken.kind);
        if eaten.Fail? {
          return Err(eaten.error);
        }
        var rhs :- Factor();
        node := BinaryOp(op, node, rhs);
      }
      return Ok(node);
    }

    /** `factor()`: a NUMBER converted by `stoi`, or `( expression )`; anything else is an "Invalid factor". */
    method Factor() returns (r: Result<Node, Error>)
      requires Valid()
      modifies this, lexer
      decreases |stream.toks| - index, 0
      ensures Follows(r, CalcGrammar.Factor(stream, old(index)))
    {
      if currentToken.kind == NUMBER {
        var val :- CalcGrammar.Stoi(currentToken.value);
        var eaten := Eat(NUMBER);
        if eaten.Fail? {
          return Err(eaten.error);
        }
        return Ok(Number(val));
      } else if currentToken.kind == LPAREN {
        var eaten := Eat(LPAREN);
        if eaten.Fail? {
          return Err(eaten.error);
        }
        var node :- Expression();
        eaten := Eat(RPAREN);
        if eaten.Fail? {
          return Err(eaten.error);
        }
        return Ok(node);
      }
      return Err(InvalidFactor);
    }

    /** `parse()`: one expression; the tokens after it are left unread. */
    method Parse() returns (r: Result<Node, Error>)
      requires Valid()
      modifies this, lexer
      ensures Follows(r, CalcGrammar.Expression(stream, old(index)))
    {
      r := Expression();
    }
  }

  /** The value of a text under the whole pipeline: lex, parse, evaluate. */
  function Calculation(code: string): Result<int, Error>
    requires CalcGrammar.ParseText(LexStream(code, 0)).Ok? ==> Safe(CalcGrammar.ParseText(LexStream(code, 0)).value)
  {
    var tree :- CalcGrammar.ParseText(LexStream(code, 0));
    Evaluate(tree)
  }

  /**
   * What `main` does before printing: build a lexer and a parser over the
   * text, parse it and evaluate the tree.
   */
  method Calculate(code: string) returns (r: Result<int, Error>)
    requires CalcGrammar.ParseText(LexStream(code, 0)).Ok? ==> Safe(CalcGrammar.ParseText(LexStream(code, 0)).value)
    ensures r == Calculation(code)
  {
    var lexer := new Lexer(code);
    var created := Parser.Create(lexer);
    if created.Err? {
      return Err(created.error);
    }
    var parser := created.value;
    var tree :- parser.Parse();
    r := Evaluate(tree);
  }
}
