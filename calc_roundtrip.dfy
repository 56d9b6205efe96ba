/**
 * Round trips through the calculator's front end: a tree printed fully
 * parenthesised is read back by the parser as the same tree, its spelling is
 * lexed back into the same tokens, and so the whole pipeline computes
 * `evaluate` of that tree.
 */
module CalcRoundTrip {
  import opened Wrappers
  import opened CalcToken
  import opened CalcAst
  import opened CalcLexer
  import opened CalcLexerProps
  import opened CalcGrammar
  import opened CalcGrammarProps
  import opened CalcEval
  import CalcParser

  /** The decimal digits of `n`, most significant first, without leading zeros. */
  function ToDecimal(n: nat): string
    decreases n
  {
    (if n < 10 then "" else ToDecimal(n / 10)) + [('0' as int + n % 10) as char]
  }

  /** Reading the digits of `n` back gives `n`. */
  lemma {:induction false} DecimalRoundTrip(n: nat)
    ensures 0 < |ToDecimal(n)| && AllDigits(ToDecimal(n))
    ensures DecimalValue(ToDecimal(n)) == n
    decreases n
  {
    var d := ToDecimal(n);
    var prefix := if n < 10 then "" else ToDecimal(n / 10);
    var c := ('0' as int + n % 10) as char;
    assert d == prefix + [c];
    if n >= 10 {
      DecimalRoundTrip(n / 10);
    }
    assert IsDigit(c) && c as int - '0' as int == n % 10;
    assert AllDigits(d) by {
      forall k | 0 <= k < |d| ensures IsDigit(d[k]) {
        if k < |prefix| { assert d[k] == prefix[k]; }
      }
    }
    assert d[..|d| - 1] == prefix;
    DivisionOfMagnitudes(n, 10);
    assert DecimalValue(d) == DecimalValue(prefix) * 10 + n % 10;
  }

  /** `stoi` of the digits of any non-negative `int` gives it back. */
  lemma StoiDecimal(n: nat)
    requires n <= IntMax
    ensures Stoi(ToDecimal(n)) == Ok(n)
  {
    DecimalRoundTrip(n);
  }

  /** The token of an operator the evaluator knows. */
  function OperatorToken(op: string): (t: Token)
    requires KnownOp(op)
    ensures WellFormed(t) && t.value == op
  {
    if op == "+" then Token(PLUS, op)
    else if op == "-" then Token(MINUS, op)
    else if op == "*" then Token(MUL, op)
    else Token(DIV, op)
  }

  /** The tokens of a tree, every operator node wrapped in parentheses. */
  function Print(e: Node): (p: seq<Token>)
    requires Buildable(e)
    ensures |p| == Width(e)
  {
    match e
    case Number(v) => [Token(NUMBER, ToDecimal(v))]
    case BinaryOp(op, l, r) => [LParen] + Print(l) + [OperatorToken(op)] + Print(r) + [RParen]
  }

  /** The number of tokens in the print of a tree. */
  function Width(e: Node): (n: nat)
    ensures n >= 1
  {
    match e
    case Number(_) => 1
    case BinaryOp(_, l, r) => Width(l) + Width(r) + 3
  }

  /** The tokens from `i` on are the print of `e`, node by node. */
  predicate LaidOut(a: seq<Token>, i: nat, e: Node)
    decreases e
  {
    match e
    case Number(v) => 0 <= v <= IntMax && i < |a| && a[i] == Token(NUMBER, ToDecimal(v))
    case BinaryOp(op, l, r) =>
      KnownOp(op) && i + Width(e) <= |a| &&
      a[i] == LParen && LaidOut(a, i + 1, l) &&
      a[i + 1 + Width(l)] == OperatorToken(op) && LaidOut(a, i + 2 + Width(l), r) &&
      a[i + 2 + Width(l) + Width(r)] == RParen
  }

  /**
   * The tokens from `i` on spell `e` fully parenthesised, each number by a
   * token `stoi` converts back to it.
   */
  predicate PrintedAt(a: seq<Token>, i: nat, e: Node)
    decreases e
  {
    match e
    case Number(v) => i < |a| && a[i].kind == NUMBER && Stoi(a[i].value) == Ok(v)
    case BinaryOp(op, l, r) =>
      KnownOp(op) && i + Width(e) <= |a| &&
      a[i] == LParen && PrintedAt(a, i + 1, l) &&
      a[i + 1 + Width(l)] == OperatorToken(op) && PrintedAt(a, i + 2 + Width(l), r) &&
      a[i + 2 + Width(l) + Width(r)] == RParen
  }

  /** A slice of a slice, read off the outer sequence. */
  lemma SliceOfSlice(a: seq<Token>, i: nat, p: seq<Token>, lo: nat, hi: nat)
    requires i + |p| <= |a| && a[i..i + |p|] == p && lo <= hi <= |p|
    ensures a[i + lo..i + hi] == p[lo..hi]
  {
    forall k | 0 <= k < hi - lo ensures a[i + lo..i + hi][k] == p[lo..hi][k] {
      assert p[lo + k] == a[i..i + |p|][lo + k];
    }
  }

  /** Where the pieces of `( l op r )` sit in a sequence that holds it from `i` to `end`. */
  lemma ParenthesisedLayout(a: seq<Token>, i: nat, p: seq<Token>, pl: seq<Token>, o: Token, pr: seq<Token>,
                            i1: nat, j: nat, i2: nat, end: nat)
    requires p == [LParen] + pl + [o] + pr + [RParen]
    requires i1 == i + 1 + |pl| && j == i1 + 1 && i2 == j + |pr| && end == i2 + 1
    requires end <= |a| && a[i..end] == p
    ensures a[i] == LParen && a[i + 1..i1] == pl && a[i1] == o
    ensures a[j..i2] == pr && a[i2] == RParen
  {
    var q := [LParen] + pl + [o];
    assert p == q + pr + [RParen];
    assert p[..|q|] == q;
    assert q[1..1 + |pl|] == pl;
    assert p[1..1 + |pl|] == pl;
    assert p[|pl| + 2..|pl| + 2 + |pr|] == pr;
    SliceOfSlice(a, i, p, 0, 1);
    SliceOfSlice(a, i, p, 1, 1 + |pl|);
    SliceOfSlice(a, i, p, |pl| + 1, |pl| + 2);
    SliceOfSlice(a, i, p, |pl| + 2, |pl| + 2 + |pr|);
    SliceOfSlice(a, i, p, |p| - 1, |p|);
  }

  /** The pieces of `( l op r )`, each laid out at its place, lay out the node. */
  lemma LaidOutNode(a: seq<Token>, i: nat, op: string, l: Node, r: Node, i1: nat, j: nat, i2: nat)
    requires i1 == i + 1 + Width(l) && j == i1 + 1 && i2 == j + Width(r)
    requires KnownOp(op) && i2 < |a|
    requires a[i] == LParen && LaidOut(a, i + 1, l) && a[i1] == OperatorToken(op)
    requires LaidOut(a, j, r) && a[i2] == RParen
    ensures LaidOut(a, i, BinaryOp(op, l, r))
  {
  }

  /** The print of a tree, wherever it sits, is laid out node by node. */
  lemma {:induction false} PrintIsLaidOut(a: seq<Token>, i: nat, e: Node, end: nat)
    requires Buildable(e)
    requires end == i + Width(e) <= |a| && a[i..end] == Print(e)
    ensures LaidOut(a, i, e)
    decreases e
  {
    match e
    case Number(v) =>
      SliceOfSlice(a, i, Print(e), 0, 1);
    case BinaryOp(op, l, r) =>
      var i1 := i + 1 + Width(l);
      var j := i1 + 1;
      var i2 := j + Width(r);
      assert Print(e) == [LParen] + Print(l) + [OperatorToken(op)] + Print(r) + [RParen];
      ParenthesisedLayout(a, i, Print(e), Print(l), OperatorToken(op), Print(r), i1, j, i2, end);
      PrintIsLaidOut(a, i + 1, l, i1);
      PrintIsLaidOut(a, j, r, i2);
      LaidOutNode(a, i, op, l, r, i1, j, i2);
  }

  /** Decimal numerals are read back by `stoi`, so a laid-out print is one `factor()` can read. */
  lemma {:induction false} LaidOutIsPrintedAt(a: seq<Token>, i: nat, e: Node)
    requires LaidOut(a, i, e)
    ensures PrintedAt(a, i, e)
    decreases e
  {
    match e
    case Number(v) =>
      StoiDecimal(v);
    case BinaryOp(op, l, r) =>
      LaidOutIsPrintedAt(a, i + 1, l);
      LaidOutIsPrintedAt(a, i + 2 + Width(l), r);
  }

  /** `factor()` on `( l op r )` once `l` and `r` are each read by `factor()`. */
  lemma FactorOfParenthesised(s: TokenStream, i: nat, op: string, l: Node, r: Node, i1: nat, j: nat, i2: nat, end: nat)
    requires KnownOp(op) && i < i1 && j == i1 + 1 && j < i2 < |s.toks| && end == i2 + 1 && ValidIndex(s, end)
    requires s.toks[i] == LParen && Factor(s, i + 1) == Ok((l, i1))
    requires s.toks[i1] == OperatorToken(op) && Factor(s, j) == Ok((r, i2))
    requires s.toks[i2] == RParen
    ensures Factor(s, i) == Ok((BinaryOp(op, l, r), end))
  {
    var e := BinaryOp(op, l, r);
    assert Eat(s, i, LPAREN) == Ok(i + 1);
    assert Eat(s, i2, RPAREN) == Ok(i2 + 1);
    if op == "*" || op == "/" {
      assert TermTail(s, e, i2) == Ok((e, i2));
      assert TermTail(s, l, i1) == Ok((e, i2));
      assert Term(s, i + 1) == Ok((e, i2));
      assert ExpressionTail(s, e, i2) == Ok((e, i2));
    } else {
      assert TermTail(s, l, i1) == Ok((l, i1));
      assert TermTail(s, r, i2) == Ok((r, i2));
      assert Term(s, j) == Ok((r, i2));
      assert ExpressionTail(s, e, i2) == Ok((e, i2));
      assert ExpressionTail(s, l, i1) == Ok((e, i2));
    }
    assert Expression(s, i + 1) == Ok((e, i2));
  }

  /** The pieces of a printed `( l op r )`, at positions named by the caller. */
  lemma PrintedAtNode(a: seq<Token>, i: nat, op: string, l: Node, r: Node, i1: nat, j: nat, i2: nat)
    requires PrintedAt(a, i, BinaryOp(op, l, r))
    requires i1 == i + 1 + Width(l) && j == i1 + 1 && i2 == j + Width(r)
    ensures KnownOp(op) && i2 < |a| && i2 + 1 == i + Width(BinaryOp(op, l, r))
    ensures a[i] == LParen && PrintedAt(a, i + 1, l)
    ensures a[i1] == OperatorToken(op) && PrintedAt(a, j, r) && a[i2] == RParen
  {
  }

  /** `factor()` on a NUMBER token that `stoi` converts. */
  lemma FactorOfNumber(s: TokenStream, i: nat, v: int)
    requires PrintedAt(s.toks, i, Number(v)) && ValidIndex(s, i + 1)
    ensures Factor(s, i) == Ok((Number(v), i + 1))
  {
  }

  /** `factor()` reads a parenthesised print back as the tree, whatever follows it. */
  lemma {:induction false} FactorReadsBack(s: TokenStream, i: nat, e: Node, end: nat)
    requires PrintedAt(s.toks, i, e) && end == i + Width(e) && ValidIndex(s, end)
    ensures Factor(s, i) == Ok((e, end))
    decreases e
  {
    match e
    case Number(v) =>
      FactorOfNumber(s, i, v);
    case BinaryOp(op, l, r) =>
      var i1 := i + 1 + Width(l);
      var j := i1 + 1;
      var i2 := j + Width(r);
      PrintedAtNode(s.toks, i, op, l, r, i1, j, i2);
      FactorReadsBack(s, i + 1, l, i1);
      FactorReadsBack(s, j, r, i2);
      FactorOfParenthesised(s, i, op, l, r, i1, j, i2, end);
  }

  /** Parsing the printed tokens of a tree gives the tree back. */
  lemma ParsePrinted(e: Node)
    requires Buildable(e)
    ensures ParseText(TokenStream(Print(e), false)) == Ok(e)
  {
    var s := TokenStream(Print(e), false);
    var n := |Print(e)|;
    assert s.toks[0..n] == Print(e);
    PrintIsLaidOut(s.toks, 0, e, n);
    LaidOutIsPrintedAt(s.toks, 0, e);
    FactorReadsBack(s, 0, e, n);
    WholeInputFactor(s, e, n);
  }

  /** A factor that takes up all of the tokens is the whole expression `parse()` returns. */
  lemma WholeInputFactor(s: TokenStream, e: Node, n: nat)
    requires n == |s.toks| && !s.fails && Factor(s, 0) == Ok((e, n))
    ensures ParseText(s) == Ok(e)
  {
    assert TermTail(s, e, n) == Ok((e, n));
    assert Term(s, 0) == Ok((e, n));
    assert ExpressionTail(s, e, n) == Ok((e, n));
    assert Expression(s, 0) == Ok((e, n));
  }

  /** No two NUMBER tokens follow each other, so their digits cannot run together. */
  predicate Separated(ts: seq<Token>) {
    forall k :: 0 <= k < |ts| - 1 ==> ts[k].kind != NUMBER || ts[k + 1].kind != NUMBER
  }

  /** The tokens a lexer can return before END. */
  predicate Lexemes(ts: seq<Token>) {
    forall k :: 0 <= k < |ts| ==> WellFormed(ts[k]) && ts[k].kind != END
  }

  /** Where the text holds a digit run, that run is what `integer()` collects. */
  lemma {:induction false} DigitRunIs(text: string, pos: nat, d: string)
    requires pos + |d| <= |text| && text[pos..pos + |d|] == d && AllDigits(d)
    requires !IsDigit(CharAt(text, pos + |d|))
    ensures DigitRun(text, pos) == d
    decreases |d|
  {
    if d != "" {
      assert text[pos] == d[0];
      assert text[pos + 1..pos + |d|] == d[1..];
      DigitRunIs(text, pos + 1, d[1..]);
    }
  }

  /** One call of `getNextToken` on the spelling of a token gives that token back. */
  lemma LexOne(text: string, pos: nat, t: Token)
    requires WellFormed(t) && t.kind != END
    requires pos + |t.value| <= |text| && text[pos..pos + |t.value|] == t.value
    requires t.kind == NUMBER ==> !IsDigit(CharAt(text, pos + |t.value|))
    ensures NextToken(text, pos) == Lexed(t, pos + |t.value|)
  {
    assert text[pos] == t.value[0];
    if t.kind == NUMBER {
      DigitRunIs(text, pos, t.value);
    } else {
      assert OperatorKind(t.value[0]) == Some(t.kind);
    }
  }

  /** The tail of a sequence of lexemes without adjacent numbers is one too. */
  lemma LexemesTail(ts: seq<Token>)
    requires ts != [] && Lexemes(ts) && Separated(ts)
    ensures Lexemes(ts[1..]) && Separated(ts[1..])
  {
    var rest := ts[1..];
    forall k | 0 <= k < |rest| - 1 ensures rest[k].kind != NUMBER || rest[k + 1].kind != NUMBER {
      assert rest[k] == ts[k + 1] && rest[k + 1] == ts[k + 2];
    }
  }

  /**
   * The spelling of a first token stands at the front, the spelling of the
   * rest right after it, and a number is never followed by a digit.
   */
  lemma SpelledHead(text: string, pos: nat, ts: seq<Token>)
    requires ts != [] && Lexemes(ts) && Separated(ts)
    requires pos <= |text| && text[pos..] == Spell(ts)
    ensures pos + |ts[0].value| <= |text|
    ensures text[pos..pos + |ts[0].value|] == ts[0].value
    ensures text[pos + |ts[0].value|..] == Spell(ts[1..])
    ensures ts[0].kind == NUMBER ==> !IsDigit(CharAt(text, pos + |ts[0].value|))
  {
    var t, rest := ts[0], ts[1..];
    var next := pos + |t.value|;
    assert text[pos..] == t.value + Spell(rest);
    assert text[pos..next] == t.value by { assert text[pos..next] == text[pos..][..|t.value|]; }
    assert text[next..] == Spell(rest) by { assert text[pos..][|t.value|..] == text[next..]; }
    if t.kind == NUMBER && next < |text| {
      assert rest != [] && rest[0] == ts[1];
      assert WellFormed(rest[0]) && rest[0].kind != NUMBER && rest[0].kind != END;
      assert text[next] == rest[0].value[0] by { assert text[next..][0] == text[next]; }
    }
  }

  /** `LexStream` past one token that is not END: that token, then the rest of the stream. */
  lemma LexStreamStep(text: string, pos: nat, t: Token, next: nat, rest: seq<Token>)
    requires NextToken(text, pos) == Lexed(t, next) && t.kind != END
    requires LexStream(text, next) == TokenStream(rest, false)
    ensures LexStream(text, pos) == TokenStream([t] + rest, false)
  {
  }

  /**
   * Lexing the spelling of well-formed tokens in which no two numbers are
   * adjacent gives back exactly those tokens, then END.
   */
  lemma {:induction false} LexSpelled(text: string, pos: nat, ts: seq<Token>)
    requires Lexemes(ts) && Separated(ts)
    requires pos <= |text| && text[pos..] == Spell(ts)
    ensures LexStream(text, pos) == TokenStream(ts, false)
    decreases |ts|
  {
    if ts == [] {
      assert |text[pos..]| == 0;
      assert NextToken(text, pos) == Lexed(EndToken, pos);
    } else {
      var t, rest := ts[0], ts[1..];
      var next := pos + |t.value|;
      SpelledHead(text, pos, ts);
      LexemesTail(ts);
      LexOne(text, pos, t);
      LexSpelled(text, next, rest);
      LexStreamStep(text, pos, t, next, rest);
      assert [t] + rest == ts;
    }
  }

  /** Joining two lexeme sequences keeps numbers apart when one side of the seam is not a number. */
  lemma SeparatedJoin(a: seq<Token>, b: seq<Token>)
    requires Lexemes(a) && Separated(a) && Lexemes(b) && Separated(b)
    requires a != [] && b != [] && (a[|a| - 1].kind != NUMBER || b[0].kind != NUMBER)
    ensures Lexemes(a + b) && Separated(a + b)
  {
    var c := a + b;
    forall k | 0 <= k < |c| - 1 ensures c[k].kind != NUMBER || c[k + 1].kind != NUMBER {
      if k < |a| - 1 {
        assert c[k] == a[k] && c[k + 1] == a[k + 1];
      } else if k >= |a| {
        assert c[k] == b[k - |a|] && c[k + 1] == b[k + 1 - |a|];
      }
    }
  }

  /** A printed tree is a non-empty sequence of lexemes without adjacent numbers. */
  lemma {:induction false} PrintedLexemes(e: Node)
    requires Buildable(e)
    ensures |Print(e)| > 0 && Lexemes(Print(e)) && Separated(Print(e))
    decreases e
  {
    match e
    case Number(v) =>
      DecimalRoundTrip(v);
    case BinaryOp(op, l, r) =>
      PrintedLexemes(l);
      PrintedLexemes(r);
      assert Print(e) == [LParen] + Print(l) + [OperatorToken(op)] + Print(r) + [RParen];
      ParenthesisedLexemes(Print(l), OperatorToken(op), Print(r));
  }

  /** Parentheses around `l op r` keep the lexemes of `l` and `r` apart from each other. */
  lemma ParenthesisedLexemes(pl: seq<Token>, o: Token, pr: seq<Token>)
    requires pl != [] && Lexemes(pl) && Separated(pl)
    requires pr != [] && Lexemes(pr) && Separated(pr)
    requires WellFormed(o) && o.kind != NUMBER && o.kind != END
    ensures Lexemes([LParen] + pl + [o] + pr + [RParen]) && Separated([LParen] + pl + [o] + pr + [RParen])
  {
    SeparatedJoin([LParen], pl);
    SeparatedJoin([LParen] + pl, [o]);
    SeparatedJoin([LParen] + pl + [o], pr);
    SeparatedJoin([LParen] + pl + [o] + pr, [RParen]);
  }

  /**
   * The whole pipeline on the spelling of a printed tree: lexing and parsing
   * give the tree back, so the result is `evaluate` of the tree.
   */
  lemma PipelineComputesEvaluate(e: Node)
    requires Buildable(e) && Safe(e)
    ensures CalcGrammar.ParseText(LexStream(Spell(Print(e)), 0)) == Ok(e)
    ensures CalcParser.Calculation(Spell(Print(e))) == Evaluate(e)
  {
    PrintedLexemes(e);
    LexSpelled(Spell(Print(e)), 0, Print(e));
    ParsePrinted(e);
  }

  /** The spelling of tokens with one space between neighbours, as in "3 + 4 * 2". */
  function SpellSpaced(ts: seq<Token>): string {
    if ts == [] then ""
    else if |ts| == 1 then ts[0].value
    else ts[0].value + " " + SpellSpaced(ts[1..])
  }

  /** A space under the cursor is skipped: lexing goes on from the next character. */
  lemma SkipSpace(text: string, pos: nat, after: nat, s: TokenStream)
    requires pos < |text| && text[pos] == ' ' && after == pos + 1 && LexStream(text, after) == s
    ensures LexStream(text, pos) == s
  {
    assert NextToken(text, pos) == NextToken(text, after);
  }

  /** The spelling of a first token, then a space, then the spelling of the rest. */
  lemma SpacedHead(text: string, pos: nat, ts: seq<Token>)
    requires |ts| > 1 && pos <= |text| && text[pos..] == SpellSpaced(ts)
    ensures pos + |ts[0].value| < |text| && text[pos + |ts[0].value|] == ' '
    ensures text[pos..pos + |ts[0].value|] == ts[0].value
    ensures text[pos + |ts[0].value| + 1..] == SpellSpaced(ts[1..])
  {
    var t := ts[0];
    var next := pos + |t.value|;
    assert text[pos..] == t.value + [' '] + SpellSpaced(ts[1..]);
    assert text[pos..next] == t.value by { assert text[pos..next] == text[pos..][..|t.value|]; }
    assert text[next] == ' ' by { assert text[pos..][|t.value|] == text[next]; }
    assert text[next + 1..] == SpellSpaced(ts[1..]) by { assert text[pos..][|t.value| + 1..] == text[next + 1..]; }
  }

  /** After the first of several spaced tokens and its space come the rest, spaced. */
  lemma SpacedTail(text: string, pos: nat, ts: seq<Token>)
    requires |ts| > 1 && Lexemes(ts)
    requires pos <= |text| && text[pos..] == SpellSpaced(ts)
    ensures pos + |ts[0].value| + 1 <= |text|
    ensures Lexemes(ts[1..]) && text[pos + |ts[0].value| + 1..] == SpellSpaced(ts[1..])
  {
    SpacedHead(text, pos, ts);
    var rest := ts[1..];
    forall k | 0 <= k < |rest| ensures WellFormed(rest[k]) && rest[k].kind != END {
      assert rest[k] == ts[k + 1];
    }
  }

  /** The first of several spaced tokens is what `getNextToken` returns, and a space follows it. */
  lemma LexSpacedFirst(text: string, pos: nat, ts: seq<Token>, next: nat)
    requires |ts| > 1 && Lexemes(ts)
    requires pos <= |text| && text[pos..] == SpellSpaced(ts)
    requires next == pos + |ts[0].value|
    ensures NextToken(text, pos) == Lexed(ts[0], next) && ts[0].kind != END
    ensures next < |text| && text[next] == ' '
  {
    SpacedHead(text, pos, ts);
    LexOne(text, pos, ts[0]);
  }

  /** Once the rest of several spaced tokens lexes back, so do all of them. */
  lemma LexSpacedStep(text: string, pos: nat, ts: seq<Token>, next: nat, after: nat)
    requires |ts| > 1 && Lexemes(ts)
    requires pos <= |text| && text[pos..] == SpellSpaced(ts)
    requires next == pos + |ts[0].value| && after == next + 1 <= |text|
    requires LexStream(text, after) == TokenStream(ts[1..], false)
    ensures LexStream(text, pos) == TokenStream(ts, false)
  {
    var t := ts[0];
    LexSpacedFirst(text, pos, ts, next);
    SkipSpace(text, next, after, TokenStream(ts[1..], false));
    LexStreamStep(text, pos, t, next, ts[1..]);
    assert [t] + ts[1..] == ts;
  }

  /** At most one token: its spelling is the plain one. */
  lemma LexSpacedShort(text: string, pos: nat, ts: seq<Token>)
    requires |ts| <= 1 && Lexemes(ts)
    requires pos <= |text| && text[pos..] == SpellSpaced(ts)
    ensures LexStream(text, pos) == TokenStream(ts, false)
  {
    assert text[pos..] == Spell(ts) by {
      if ts != [] { assert Spell(ts) == ts[0].value + Spell([]); }
    }
    LexSpelled(text, pos, ts);
  }

  /**
   * Lexing well-formed tokens spelled with one space between neighbours gives
   * back exactly those tokens, then END; the spaces keep numbers apart.
   */
  lemma {:induction false} LexSpaced(text: string, pos: nat, ts: seq<Token>)
    requires Lexemes(ts)
    requires pos <= |text| && text[pos..] == SpellSpaced(ts)
    ensures LexStream(text, pos) == TokenStream(ts, false)
    decreases |ts|
  {
    if |ts| <= 1 {
      LexSpacedShort(text, pos, ts);
    } else {
      var next := pos + |ts[0].value|;
      var after := next + 1;
      SpacedTail(text, pos, ts);
      LexSpaced(text, after, ts[1..]);
      LexSpacedStep(text, pos, ts, next, after);
    }
  }

  /** The tokens of "3 + 4 * 2", spelled with one space between neighbours. */
  lemma ExampleSpelling(ts: seq<Token>)
    requires ts == [Num("3"), Plus, Num("4"), Times, Num("2")]
    ensures Lexemes(ts) && SpellSpaced(ts) == "3 + 4 * 2"
  {
    assert SpellSpaced(ts[4..]) == "2";
    assert SpellSpaced(ts[3..]) == "* 2";
    assert SpellSpaced(ts[2..]) == "4 * 2";
    assert SpellSpaced(ts[1..]) == "+ 4 * 2";
  }

  /** The lexer on "3 + 4 * 2": spaces are skipped and five tokens come out. */
  lemma LexExample(text: string)
    requires text == "3 + 4 * 2"
    ensures LexStream(text, 0) == Clean([Num("3"), Plus, Num("4"), Times, Num("2")])
  {
    var ts := [Num("3"), Plus, Num("4"), Times, Num("2")];
    ExampleSpelling(ts);
    assert text[0..] == text;
    LexSpaced(text, 0, ts);
  }

  /** "3 + 4 * 2": `*` binds tighter, so the whole pipeline computes 11. */
  lemma WorkedExample(code: string)
    requires code == "3 + 4 * 2"
    ensures ParseText(LexStream(code, 0)) == Ok(BinaryOp("+", Number(3), BinaryOp("*", Number(4), Number(2))))
    ensures CalcParser.Calculation(code) == Ok(11)
  {
    LexExample(code);
    MulBindsTighterThanAdd();
  }
}
