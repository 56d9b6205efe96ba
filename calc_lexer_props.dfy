/**
 * What the calculator's lexer promises about the whole input: the tokens spell
 * the input without its whitespace, it throws exactly when a character it does
 * not accept comes before the end, and END keeps coming once it has come.
 */
module CalcLexerProps {
  import opened CalcToken
  import opened CalcLexer

  /** The characters the lexer reads from `pos` on: up to the end of the text or the first NUL. */
  function Visible(text: string, pos: nat): string
    decreases |text| - pos
  {
    if CharAt(text, pos) == NUL then "" else [text[pos]] + Visible(text, pos + 1)
  }

  /** `s` with its whitespace removed. */
  function NonSpace(s: string): string {
    if s == "" then "" else (if IsSpace(s[0]) then "" else [s[0]]) + NonSpace(s[1..])
  }

  /** The token values one after another. */
  function Spell(ts: seq<Token>): string {
    if ts == [] then "" else ts[0].value + Spell(ts[1..])
  }

  predicate AllLexable(s: string) { forall k :: 0 <= k < |s| ==> Lexable(s[k]) }

  lemma {:induction false} NonSpaceAppend(a: string, b: string)
    ensures NonSpace(a + b) == NonSpace(a) + NonSpace(b)
  {
    if a == "" {
      assert a + b == b;
    } else {
      assert (a + b)[1..] == a[1..] + b;
      NonSpaceAppend(a[1..], b);
    }
  }

  lemma {:induction false} NonSpaceDigits(s: string)
    requires AllDigits(s)
    ensures NonSpace(s) == s
  {
    if s != "" {
      NonSpaceDigits(s[1..]);
    }
  }

  /** The digit run under the cursor is the start of what the lexer reads from there. */
  lemma {:induction false} DigitRunVisible(text: string, pos: nat)
    ensures Visible(text, pos) == DigitRun(text, pos) + Visible(text, pos + |DigitRun(text, pos)|)
    decreases |text| - pos
  {
    if IsDigit(CharAt(text, pos)) {
      DigitRunVisible(text, pos + 1);
    }
  }

  /** One call of `getNextToken` spells the non-space characters it moves over. */
  lemma {:induction false} NextTokenSpelling(text: string, pos: nat)
    ensures NextToken(text, pos).Lexed? ==>
      NonSpace(Visible(text, pos)) == NextToken(text, pos).tok.value + NonSpace(Visible(text, NextToken(text, pos).next))
    decreases |text| - pos
  {
    var c := CharAt(text, pos);
    if c == NUL {
    } else if IsSpace(c) {
      NextTokenSpelling(text, pos + 1);
      NonSpaceAppend([c], Visible(text, pos + 1));
    } else if IsDigit(c) {
      var run := DigitRun(text, pos);
      DigitRunVisible(text, pos);
      NonSpaceAppend(run, Visible(text, pos + |run|));
      NonSpaceDigits(run);
    } else if OperatorKind(c).Some? {
      NonSpaceAppend([c], Visible(text, pos + 1));
    }
  }

  /**
   * For input that lexes without error, the token values up to END spell the
   * input with its whitespace removed.
   */
  lemma {:induction false} LexStreamSpelling(text: string, pos: nat)
    requires !LexStream(text, pos).fails
    ensures Spell(LexStream(text, pos).toks) == NonSpace(Visible(text, pos))
    decreases |text| - pos
  {
    match NextToken(text, pos)
    case Lexed(t, next) =>
      NextTokenSpelling(text, pos);
      if t.kind == END {
        assert Visible(text, next) == "";
      } else {
        LexStreamSpelling(text, next);
        var s := LexStream(text, pos);
        assert s.toks[1..] == LexStream(text, next).toks;
      }
  }

  lemma AllLexableAppend(a: string, b: string)
    ensures AllLexable(a + b) <==> AllLexable(a) && AllLexable(b)
  {
    if AllLexable(a + b) {
      forall k | 0 <= k < |a| ensures Lexable(a[k]) { assert (a + b)[k] == a[k]; }
      forall k | 0 <= k < |b| ensures Lexable(b[k]) { assert (a + b)[|a| + k] == b[k]; }
    }
  }

  /** One call of `getNextToken` throws on a character it does not accept and moves only over accepted ones. */
  lemma {:induction false} NextTokenLexable(text: string, pos: nat)
    ensures NextToken(text, pos).LexFailed? ==> !AllLexable(Visible(text, pos))
    ensures NextToken(text, pos).Lexed? ==>
      (AllLexable(Visible(text, pos)) <==> AllLexable(Visible(text, NextToken(text, pos).next)))
    decreases |text| - pos
  {
    var c := CharAt(text, pos);
    if c == NUL {
    } else if IsSpace(c) {
      NextTokenLexable(text, pos + 1);
      AllLexableAppend([c], Visible(text, pos + 1));
    } else if IsDigit(c) {
      var run := DigitRun(text, pos);
      DigitRunVisible(text, pos);
      AllLexableAppend(run, Visible(text, pos + |run|));
    } else {
      assert Visible(text, pos)[0] == c;
      AllLexableAppend([c], Visible(text, pos + 1));
    }
  }

  /**
   * The lexer throws "Invalid character" at some call exactly when a character
   * it does not accept occurs before the end of the input.
   */
  lemma {:induction false} LexStreamFailsIffInvalid(text: string, pos: nat)
    ensures LexStream(text, pos).fails <==> !AllLexable(Visible(text, pos))
    decreases |text| - pos
  {
    NextTokenLexable(text, pos);
    match NextToken(text, pos)
    case LexFailed(_) =>
    case Lexed(t, next) =>
      if t.kind == END {
        assert Visible(text, next) == "";
      } else {
        LexStreamFailsIffInvalid(text, next);
      }
  }

  /** Once `getNextToken` has returned END, every further call returns END and leaves the cursor where it is. */
  lemma EndIsSticky(text: string, pos: nat)
    requires NextToken(text, pos).Lexed? && NextToken(text, pos).tok.kind == END
    ensures NextToken(text, NextToken(text, pos).next) == Lexed(EndToken, NextToken(text, pos).next)
  {
  }

  /** An input of whitespace only, the empty input included, gives END at once. */
  lemma {:induction false} BlankInputIsEnd(text: string, pos: nat)
    requires forall k :: pos <= k < |text| ==> IsSpace(text[k])
    ensures NextToken(text, pos) == Lexed(EndToken, if pos <= |text| then |text| else pos)
    decreases |text| - pos
  {
    if pos < |text| {
      BlankInputIsEnd(text, pos + 1);
    }
  }
}
