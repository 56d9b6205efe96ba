/**
 * How the calculator's grammar (calculator/src/parser.cpp) groups a run of
 * numbers and operators, for every such run.
 *
 * The reference reading `Sum` is defined from the right, independently of
 * the parser's left-to-right loops: the root of a run is its last `+` or
 * `-`, with the run before it read as a `Sum` and the run after it as a
 * `Product`; a run without `+` or `-` is a `Product`, whose root is its last
 * `*` or `/`. So every operator groups to the left, and `*` and `/` bind
 * tighter than `+` and `-`. `ExpressionReadsSum` proves that `expression()`
 * returns exactly this reading.
 */
module CalcGrouping {
  import opened Wrappers
  import opened CalcToken
  import opened CalcAst
  import opened CalcGrammar

  predicate Additive(t: Token) { t.kind == PLUS || t.kind == MINUS }

  predicate Multiplicative(t: Token) { t.kind == MUL || t.kind == DIV }

  /** A token that ends an expression: neither loop of the grammar continues over it. */
  predicate Stops(t: Token) { !Additive(t) && !Multiplicative(t) }

  /** A NUMBER token that `stoi` reads. */
  predicate Numeral(t: Token) { t.kind == NUMBER && Stoi(t.value).Ok? }

  function ValueOf(t: Token): int
    requires Numeral(t)
  {
    Stoi(t.value).value
  }

  /** Number, operator, number, ..., number. */
  predicate Run(run: seq<Token>) {
    |run| % 2 == 1 &&
    forall k :: 0 <= k < |run| ==>
      if k % 2 == 0 then Numeral(run[k]) else Additive(run[k]) || Multiplicative(run[k])
  }

  predicate NoAdditive(run: seq<Token>) {
    forall k :: 0 <= k < |run| ==> !Additive(run[k])
  }

  /** Moving on by an odd number of places flips parity. */
  lemma OddShift(k: int, j: int, x: int)
    requires k % 2 == 1 && x == k + 1 + j
    ensures x % 2 == j % 2
  {
  }

  /** A run cut at one of its operators leaves a run on each side. */
  lemma RunSplit(run: seq<Token>, k: nat)
    requires Run(run) && k < |run| && !Numeral(run[k])
    ensures Run(run[..k]) && Run(run[k + 1..])
  {
    assert k % 2 == 1;
    var right := run[k + 1..];
    forall j | 0 <= j < |right|
      ensures if j % 2 == 0 then Numeral(right[j]) else Additive(right[j]) || Multiplicative(right[j])
    {
      var x := k + 1 + j;
      assert right[j] == run[x];
      OddShift(k, j, x);
    }
    OddShift(k, |right| - 1, |run| - 1);
  }

  /** A run that is a proper prefix of a run goes on with an operator and a numeral. */
  lemma RunExtends(run: seq<Token>, m: nat, m2: nat)
    requires Run(run) && m < |run| && Run(run[..m]) && m2 == m + 2
    ensures m2 <= |run| && !Numeral(run[m]) && Numeral(run[m + 1])
    ensures Additive(run[m]) || Multiplicative(run[m])
    ensures Run(run[..m2])
  {
    assert |run[..m]| == m;
    assert m % 2 == 1;
    var p := run[..m2];
    forall j | 0 <= j < |p|
      ensures if j % 2 == 0 then Numeral(p[j]) else Additive(p[j]) || Multiplicative(p[j])
    {
      assert p[j] == run[j];
    }
  }

  /** The index of the last `+` or `-` of a sequence of tokens, or -1 without one. */
  function LastAdditive(run: seq<Token>): (k: int)
    ensures -1 <= k < |run|
    ensures k >= 0 ==> Additive(run[k])
    ensures forall j :: k < j < |run| ==> !Additive(run[j])
    ensures k < 0 <==> NoAdditive(run)
  {
    if |run| == 0 then -1
    else if Additive(run[|run| - 1]) then |run| - 1
    else LastAdditive(run[..|run| - 1])
  }

  /** The index of the first `+` or `-` at or after `from`, or the length without one. */
  function NextAdditive(run: seq<Token>, from: nat): (j: nat)
    requires from <= |run|
    ensures from <= j <= |run| && (j < |run| ==> Additive(run[j]))
    ensures forall x :: from <= x < j ==> !Additive(run[x])
    decreases |run| - from
  {
    if from == |run| || Additive(run[from]) then from else NextAdditive(run, from + 1)
  }

  /** A run of `*` and `/` read with each operator grouped to the left: the root is the last operator. */
  function Product(run: seq<Token>): Node
    requires Run(run) && NoAdditive(run)
    decreases |run|
  {
    if |run| == 1 then Number(ValueOf(run[0]))
    else
      var k := |run| - 2;
      assert k % 2 == 1 && (k + 1) % 2 == 0;
      RunSplit(run, k);
      BinaryOp(run[k].value, Product(run[..k]), Number(ValueOf(run[k + 1])))
  }

  /**
   * A run read with the usual precedence: the root is the last `+` or `-`,
   * over the `Sum` before it and the `Product` after it.
   */
  function Sum(run: seq<Token>): Node
    requires Run(run)
    decreases |run|
  {
    var k := LastAdditive(run);
    if k < 0 then Product(run)
    else
      RunSplit(run, k);
      BinaryOp(run[k].value, Sum(run[..k]), Product(run[k + 1..]))
  }

  /** A product one operator and numeral longer has that operator at its root. */
  lemma ProductStep(run: seq<Token>, m: nat, m2: nat)
    requires Run(run) && NoAdditive(run) && m < |run| && Run(run[..m]) && m2 == m + 2
    ensures m2 <= |run| && Run(run[..m2]) && Numeral(run[m + 1])
    ensures Product(run[..m2]) == BinaryOp(run[m].value, Product(run[..m]), Number(ValueOf(run[m + 1])))
  {
    RunExtends(run, m, m2);
    var p := run[..m2];
    assert p[..m] == run[..m];
    assert p[m] == run[m] && p[m + 1] == run[m + 1];
  }

  /** A sequence with its last `+` or `-` at `m`. */
  lemma LastAdditiveIs(run: seq<Token>, m: nat)
    requires m < |run| && Additive(run[m])
    requires forall j :: m < j < |run| ==> !Additive(run[j])
    ensures LastAdditive(run) == m
  {
  }

  /** The reading of a run whose last `+` or `-` is at `m` has that operator at its root. */
  lemma RootAt(run: seq<Token>, m: nat)
    requires Run(run) && m < |run| && Additive(run[m])
    requires forall j :: m < j < |run| ==> !Additive(run[j])
    ensures Run(run[..m]) && Run(run[m + 1..]) && NoAdditive(run[m + 1..])
    ensures Sum(run) == BinaryOp(run[m].value, Sum(run[..m]), Product(run[m + 1..]))
  {
    assert Run(run[..m]) && Run(run[m + 1..]) by {
      RunSplit(run, m);
    }
    assert NoAdditive(run[m + 1..]) by {
      NoAdditiveAfter(run, m);
    }
    assert LastAdditive(run) == m by {
      LastAdditiveIs(run, m);
    }
  }

  lemma NoAdditiveAfter(run: seq<Token>, m: nat)
    requires m < |run| && forall j :: m < j < |run| ==> !Additive(run[j])
    ensures NoAdditive(run[m + 1..])
  {
    var right := run[m + 1..];
    forall k | 0 <= k < |right|
      ensures !Additive(right[k])
    {
      assert right[k] == run[m + 1 + k];
    }
  }

  /** The run up to the next `+` or `-` after `m`, and the stretch between them. */
  lemma SegmentRuns(run: seq<Token>, m: nat, m2: nat)
    requires Run(run) && m < |run| && Additive(run[m])
    requires m2 == NextAdditive(run, m + 1)
    ensures Run(run[..m2]) && m < m2
    ensures run[..m2][m] == run[m] && run[..m2][..m] == run[..m] && run[..m2][m + 1..] == run[m + 1..m2]
    ensures forall j :: m < j < m2 ==> !Additive(run[..m2][j])
  {
    if m2 < |run| {
      RunSplit(run, m2);
    } else {
      assert run[..m2] == run;
    }
  }

  /**
   * Between a `+` or `-` at `m` and the next one at `m2` (or the end), the run
   * is a product, and the reading of the run up to `m2` has its root at `m`.
   */
  lemma SegmentIsProduct(run: seq<Token>, m: nat, m2: nat)
    requires Run(run) && m < |run| && Additive(run[m])
    requires m2 == NextAdditive(run, m + 1)
    ensures Run(run[..m2]) && Run(run[m + 1..m2]) && NoAdditive(run[m + 1..m2])
    ensures Sum(run[..m2]) == BinaryOp(run[m].value, Sum(run[..m]), Product(run[m + 1..m2]))
  {
    SegmentRuns(run, m, m2);
    RootAt(run[..m2], m);
  }

  /** The run up to its first `+` or `-` is a product, and its reading is that product. */
  lemma FirstSegment(run: seq<Token>, m: nat)
    requires Run(run) && m == NextAdditive(run, 0)
    ensures 0 < m && Run(run[..m]) && NoAdditive(run[..m]) && Sum(run[..m]) == Product(run[..m])
    ensures m < |run| ==> Additive(run[m])
  {
    assert Numeral(run[0]);
    if m < |run| {
      RunSplit(run, m);
    } else {
      assert run[..m] == run;
    }
  }

  /** The run occupies the stream from `i` to `end`, and the lexer does not fail before `end`. */
  predicate Placed(s: TokenStream, i: nat, run: seq<Token>, end: nat) {
    end == i + |run| && ValidIndex(s, end) && s.toks[i..end] == run
  }

  lemma TokenAt(s: TokenStream, i: nat, run: seq<Token>, end: nat, m: nat, p: nat)
    requires Placed(s, i, run, end) && m < |run| && p == i + m
    ensures p < |s.toks| && s.toks[p] == run[m] && Current(s, p) == run[m]
  {
    assert s.toks[i..end][m] == s.toks[p];
  }

  /** A stretch of a placed run is placed, and what follows it stops a product when it is a `+`, a `-` or the end. */
  lemma SegmentPlaced(s: TokenStream, i: nat, run: seq<Token>, end: nat, a: nat, b: nat, q: nat, p2: nat)
    requires Placed(s, i, run, end) && a <= b <= |run| && q == i + a && p2 == i + b
    requires b < |run| ==> Additive(run[b])
    requires Stops(Current(s, end))
    ensures Placed(s, q, run[a..b], p2) && !Multiplicative(Current(s, p2))
  {
    assert s.toks[q..p2] == s.toks[i..end][a..b];
    if b < |run| {
      TokenAt(s, i, run, end, b, p2);
    }
  }

  /** `factor()` on a numeral. */
  lemma FactorOfNumeral(s: TokenStream, q: nat, r: nat)
    requires q < |s.toks| && Numeral(s.toks[q]) && r == q + 1 && ValidIndex(s, r)
    ensures Factor(s, q) == Ok((Number(ValueOf(s.toks[q])), r))
  {
  }

  /** One round of the loop of `term()`: an operator and a numeral. */
  lemma TermTailStep(s: TokenStream, node: Node, p: nat, q: nat, r: nat, op: Token, num: Token)
    requires q == p + 1 && r == q + 1 && q < |s.toks| && ValidIndex(s, r)
    requires s.toks[p] == op && s.toks[q] == num && Multiplicative(op) && Numeral(num)
    ensures TermTail(s, node, p) == TermTail(s, BinaryOp(op.value, node, Number(ValueOf(num))), r)
  {
    assert Eat(s, p, op.kind) == Ok(q);
    FactorOfNumeral(s, q, r);
  }

  /** The loop of `term()` ends on a token other than `*` and `/`. */
  lemma TermTailStops(s: TokenStream, node: Node, p: nat)
    requires ValidIndex(s, p) && !Multiplicative(Current(s, p))
    ensures TermTail(s, node, p) == Ok((node, p))
  {
  }

  /** One round of the loop of `expression()`: an operator and a term. */
  lemma ExpressionTailStep(s: TokenStream, node: Node, p: nat, q: nat, e: Node, f: nat)
    requires q == p + 1 && q < |s.toks| && Additive(s.toks[p])
    requires Term(s, q) == Ok((e, f))
    ensures ExpressionTail(s, node, p) == ExpressionTail(s, BinaryOp(s.toks[p].value, node, e), f)
  {
    assert Eat(s, p, s.toks[p].kind) == Ok(q);
  }

  lemma ValidBefore(s: TokenStream, r: nat, end: nat)
    requires ValidIndex(s, end) && r <= end
    ensures ValidIndex(s, r)
  {
  }

  /** One round of the loop of `term()` inside a placed product: the product read so far grows by an operator and a numeral. */
  lemma TermTailRound(s: TokenStream, i: nat, run: seq<Token>, end: nat, m: nat, p: nat, m2: nat, r: nat)
    requires Run(run) && NoAdditive(run) && Placed(s, i, run, end)
    requires 0 < m < |run| && Run(run[..m]) && p == i + m && m2 == m + 2 && r == p + 2
    ensures m2 <= |run| && Run(run[..m2]) && ValidIndex(s, r)
    ensures TermTail(s, Product(run[..m]), p) == TermTail(s, Product(run[..m2]), r)
  {
    var q := p + 1;
    ProductStep(run, m, m2);
    TokenAt(s, i, run, end, m, p);
    TokenAt(s, i, run, end, m + 1, q);
    ValidBefore(s, r, end);
    TermTailStep(s, Product(run[..m]), p, q, r, run[m], run[m + 1]);
  }

  /** The loop of `term()`, having read the product of the first `m` tokens, reads the rest of it. */
  lemma {:induction false} TermTailReadsProduct(s: TokenStream, i: nat, run: seq<Token>, end: nat, m: nat, p: nat)
    requires Run(run) && NoAdditive(run) && Placed(s, i, run, end) && !Multiplicative(Current(s, end))
    requires 0 < m <= |run| && Run(run[..m]) && p == i + m
    ensures TermTail(s, Product(run[..m]), p) == Ok((Product(run), end))
    decreases |run| - m
  {
    if m == |run| {
      assert run[..m] == run;
      TermTailStops(s, Product(run), end);
    } else {
      var m2, r := m + 2, p + 2;
      TermTailRound(s, i, run, end, m, p, m2, r);
      TermTailReadsProduct(s, i, run, end, m2, r);
    }
  }

  /**
   * `term()` on a run of numbers, `*` and `/` followed by a token other than
   * `*` and `/`: it reads the whole run and groups every operator to the left.
   */
  lemma TermReadsProduct(s: TokenStream, i: nat, run: seq<Token>, end: nat)
    requires Run(run) && NoAdditive(run) && Placed(s, i, run, end) && !Multiplicative(Current(s, end))
    ensures Term(s, i) == Ok((Product(run), end))
  {
    var q := i + 1;
    TokenAt(s, i, run, end, 0, i);
    assert Numeral(run[0]);
    ValidBefore(s, q, end);
    FactorOfNumeral(s, i, q);
    assert run[..1] == [run[0]];
    TermTailReadsProduct(s, i, run, end, 1, q);
  }

  /** The loop of `expression()`, having read the first `m` tokens, up to a `+` or `-`, reads the rest of the run. */
  lemma {:induction false} ExpressionTailReadsSum(s: TokenStream, i: nat, run: seq<Token>, end: nat, m: nat, p: nat)
    requires Run(run) && Placed(s, i, run, end) && Stops(Current(s, end))
    requires 0 < m <= |run| && Run(run[..m]) && p == i + m && (m < |run| ==> Additive(run[m]))
    ensures ExpressionTail(s, Sum(run[..m]), p) == Ok((Sum(run), end))
    decreases |run| - m
  {
    if m == |run| {
      assert run[..m] == run;
    } else {
      RunExtends(run, m, m + 2);
      var m2 := NextAdditive(run, m + 1);
      var q, p2 := p + 1, i + m2;
      SegmentIsProduct(run, m, m2);
      SegmentPlaced(s, i, run, end, m + 1, m2, q, p2);
      TermReadsProduct(s, q, run[m + 1..m2], p2);
      TokenAt(s, i, run, end, m, p);
      ExpressionTailStep(s, Sum(run[..m]), p, q, Product(run[m + 1..m2]), p2);
      ExpressionTailReadsSum(s, i, run, end, m2, p2);
    }
  }

  /**
   * `expression()` on any run of numbers and operators followed by a token
   * that is not an operator: it reads the whole run and returns its reading
   * `Sum`, grouped to the left with `*` and `/` binding tighter.
   */
  lemma ExpressionReadsSum(s: TokenStream, i: nat, run: seq<Token>, end: nat)
    requires Run(run) && Placed(s, i, run, end) && Stops(Current(s, end))
    ensures Expression(s, i) == Ok((Sum(run), end))
  {
    var m := NextAdditive(run, 0);
    var p := i + m;
    FirstSegment(run, m);
    SegmentPlaced(s, i, run, end, 0, m, i, p);
    assert run[0..m] == run[..m];
    TermReadsProduct(s, i, run[..m], p);
    ExpressionTailReadsSum(s, i, run, end, m, p);
  }

  /** The whole front end on the tokens of a run: `parse()` returns its reading. */
  lemma ParseRun(run: seq<Token>)
    requires Run(run)
    ensures ParseText(TokenStream(run, false)) == Ok(Sum(run))
  {
    var s := TokenStream(run, false);
    assert s.toks[0..|run|] == run;
    ExpressionReadsSum(s, 0, run, |run|);
  }

  /** Without `+` or `-`, the reading of a run is its product. */
  lemma SumOfProduct(run: seq<Token>)
    requires Run(run) && NoAdditive(run)
    ensures Sum(run) == Product(run)
  {
  }

  lemma ProductOfOne(run: seq<Token>)
    requires |run| == 1 && Run(run)
    ensures NoAdditive(run) && Sum(run) == Product(run) && Product(run) == Number(ValueOf(run[0]))
  {
    assert Numeral(run[0]);
    SumOfProduct(run);
  }

  lemma ProductOfTwo(run: seq<Token>)
    requires |run| == 3 && Run(run) && Multiplicative(run[1])
    ensures NoAdditive(run) && Sum(run) == Product(run)
    ensures Product(run) == BinaryOp(run[1].value, Number(ValueOf(run[0])), Number(ValueOf(run[2])))
  {
    assert Numeral(run[0]) && Numeral(run[2]);
    SumOfProduct(run);
    ProductOfOne(run[..1]);
  }

  /** The reading of `a o1 b o2 c` when `o2` is `+` or `-`: the root is `o2`. */
  lemma SumRootOnTheRight(run: seq<Token>)
    requires |run| == 5 && Run(run) && Additive(run[3])
    ensures Run(run[..3]) && Numeral(run[4])
    ensures Sum(run) == BinaryOp(run[3].value, Sum(run[..3]), Number(ValueOf(run[4])))
  {
    RootAt(run, 3);
    ProductOfOne(run[4..]);
  }

  /** The reading of `a o1 b o2 c` when `o1` is `+` or `-` and `o2` is `*` or `/`: the root is `o1`. */
  lemma SumRootOnTheLeft(run: seq<Token>)
    requires |run| == 5 && Run(run) && Additive(run[1]) && Multiplicative(run[3])
    ensures Numeral(run[0]) && Numeral(run[2]) && Numeral(run[4])
    ensures Sum(run) == BinaryOp(run[1].value, Number(ValueOf(run[0])),
                                 BinaryOp(run[3].value, Number(ValueOf(run[2])), Number(ValueOf(run[4]))))
  {
    RootAt(run, 1);
    ProductOfOne(run[..1]);
    var right := run[2..];
    assert right[0] == run[2] && right[1] == run[3] && right[2] == run[4];
    ProductOfTwo(right);
  }

  /** The reading of `a o1 b o2 c` with `o1`, `o2` among `*` and `/`. */
  lemma ProductOfThree(run: seq<Token>)
    requires |run| == 5 && Run(run) && Multiplicative(run[1]) && Multiplicative(run[3])
    ensures Numeral(run[0]) && Numeral(run[2]) && Numeral(run[4])
    ensures Sum(run) == BinaryOp(run[3].value,
                                 BinaryOp(run[1].value, Number(ValueOf(run[0])), Number(ValueOf(run[2]))),
                                 Number(ValueOf(run[4])))
  {
    forall k | 0 <= k < |run|
      ensures !Additive(run[k])
    {
      assert k == 0 || k == 1 || k == 2 || k == 3 || k == 4;
    }
    SumOfProduct(run);
    var left := run[..3];
    assert left[1] == run[1];
    ProductOfTwo(left);
  }

  /** `a o1 b o2 c` with `o1`, `o2` among `+` and `-`: `expression()` returns `(a o1 b) o2 c`. */
  lemma AdditiveOperatorsGroupLeft(s: TokenStream, i: nat, run: seq<Token>, end: nat)
    requires |run| == 5 && Run(run) && Additive(run[1]) && Additive(run[3])
    requires Placed(s, i, run, end) && Stops(Current(s, end))
    ensures Numeral(run[0]) && Numeral(run[2]) && Numeral(run[4])
    ensures Expression(s, i) ==
            Ok((BinaryOp(run[3].value,
                         BinaryOp(run[1].value, Number(ValueOf(run[0])), Number(ValueOf(run[2]))),
                         Number(ValueOf(run[4]))), end))
  {
    ExpressionReadsSum(s, i, run, end);
    SumRootOnTheRight(run);
    var left := run[..3];
    assert left[1] == run[1];
    RootAt(left, 1);
    ProductOfOne(left[..1]);
    ProductOfOne(left[2..]);
  }

  /** `a o1 b o2 c` with `o1`, `o2` among `*` and `/`: `expression()` returns `(a o1 b) o2 c`. */
  lemma MultiplicativeOperatorsGroupLeft(s: TokenStream, i: nat, run: seq<Token>, end: nat)
    requires |run| == 5 && Run(run) && Multiplicative(run[1]) && Multiplicative(run[3])
    requires Placed(s, i, run, end) && Stops(Current(s, end))
    ensures Numeral(run[0]) && Numeral(run[2]) && Numeral(run[4])
    ensures Expression(s, i) ==
            Ok((BinaryOp(run[3].value,
                         BinaryOp(run[1].value, Number(ValueOf(run[0])), Number(ValueOf(run[2]))),
                         Number(ValueOf(run[4]))), end))
  {
    ExpressionReadsSum(s, i, run, end);
    ProductOfThree(run);
  }

  /** `a + b * c` and the like: `expression()` returns `a + (b * c)`. */
  lemma ProductBindsTighterOnTheRight(s: TokenStream, i: nat, run: seq<Token>, end: nat)
    requires |run| == 5 && Run(run) && Additive(run[1]) && Multiplicative(run[3])
    requires Placed(s, i, run, end) && Stops(Current(s, end))
    ensures Numeral(run[0]) && Numeral(run[2]) && Numeral(run[4])
    ensures Expression(s, i) ==
            Ok((BinaryOp(run[1].value,
                         Number(ValueOf(run[0])),
                         BinaryOp(run[3].value, Number(ValueOf(run[2])), Number(ValueOf(run[4])))), end))
  {
    ExpressionReadsSum(s, i, run, end);
    SumRootOnTheLeft(run);
  }

  /** `a * b + c` and the like: `expression()` returns `(a * b) + c`. */
  lemma ProductBindsTighterOnTheLeft(s: TokenStream, i: nat, run: seq<Token>, end: nat)
    requires |run| == 5 && Run(run) && Multiplicative(run[1]) && Additive(run[3])
    requires Placed(s, i, run, end) && Stops(Current(s, end))
    ensures Numeral(run[0]) && Numeral(run[2]) && Numeral(run[4])
    ensures Expression(s, i) ==
            Ok((BinaryOp(run[3].value,
                         BinaryOp(run[1].value, Number(ValueOf(run[0])), Number(ValueOf(run[2]))),
                         Number(ValueOf(run[4]))), end))
  {
    ExpressionReadsSum(s, i, run, end);
    SumRootOnTheRight(run);
    var left := run[..3];
    assert left[1] == run[1];
    ProductOfTwo(left);
  }
}
