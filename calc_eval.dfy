/**
 * The calculator's syntax tree (calculator/include/ast.hpp) and its recursive
 * evaluator `evaluate` (calculator/src/main.cpp) over 32-bit `int`.
 */
module CalcAst {
  /** `NumberNode` holds an `int`; `BinaryOpNode` owns its two children and names its operator by a string. */
  datatype Node =
    | Number(value: int)
    | BinaryOp(op: string, left: Node, right: Node)

  const IntMin: int := -0x8000_0000
  const IntMax: int := 0x7FFF_FFFF

  /** A value a C++ `int` can hold. */
  predicate IsInt32(x: int) { IntMin <= x <= IntMax }

  /** The operators `evaluate` knows. */
  predicate KnownOp(op: string) { op == "+" || op == "-" || op == "*" || op == "/" }

  /** Every operator in the tree is one `evaluate` knows. */
  predicate KnownOps(e: Node) {
    match e
    case Number(_) => true
    case BinaryOp(op, l, r) => KnownOp(op) && KnownOps(l) && KnownOps(r)
  }
}

module CalcEval {
  import opened Wrappers
  import opened CalcToken
  import opened CalcAst

  function Abs(x: int): nat { if x < 0 then -x else x }

  /**
   * C++ integer division: the quotient truncated toward zero, so that the
   * remainder `a - b * q` is smaller than the divisor and has the sign of `a`.
   * (Dafny's own `/` is Euclidean and differs when `a` is negative.)
   */
  function TruncDiv(a: int, b: int): (q: int)
    requires b != 0
    ensures Abs(a - b * q) < Abs(b)
    ensures a - b * q == 0 || (a - b * q < 0 <==> a < 0)
  {
    var m := Abs(a) / Abs(b);
    DivisionOfMagnitudes(Abs(a), Abs(b));
    SignedProduct(b, m);
    if (a < 0) == (b < 0) then m else -m
  }

  /** Euclidean division of non-negative numbers leaves a remainder below the divisor. */
  lemma DivisionOfMagnitudes(x: nat, y: nat)
    requires y > 0
    ensures x == y * (x / y) + x % y && 0 <= x % y < y
  {
  }

  /** The product of a signed divisor with a signed quotient, in terms of `Abs(b) * m`. */
  lemma SignedProduct(b: int, m: int)
    ensures b * m == if b < 0 then -(Abs(b) * m) else Abs(b) * m
    ensures b * -m == -(b * m)
  {
  }

  /** One arithmetic step of `evaluate` on the children's values. */
  function Apply(op: string, a: int, b: int): (r: Result<int, Error>)
    requires op == "/" ==> b != 0
    ensures r.Ok? <==> KnownOp(op)
    ensures r.Err? ==> r.error == UnknownOperation(op)
  {
    if op == "+" then Ok(a + b)
    else if op == "-" then Ok(a - b)
    else if op == "*" then Ok(a * b)
    else if op == "/" then Ok(TruncDiv(a, b))
    else Err(UnknownOperation(op))
  }

  /**
   * The trees on which `evaluate` has defined behaviour: every number fits an
   * `int`, no division has a zero divisor, and no intermediate result
   * overflows an `int` (signed overflow is undefined in C++).
   */
  predicate Safe(e: Node)
    decreases e, 0
  {
    match e
    case Number(v) => IsInt32(v)
    case BinaryOp(op, l, r) =>
      Safe(l) && Safe(r) &&
      match (Evaluate(l), Evaluate(r))
      case (Ok(a), Ok(b)) => (op == "/" ==> b != 0) && (Apply(op, a, b).Ok? ==> IsInt32(Apply(op, a, b).value))
      case _ => true
  }

  /**
   * `evaluate`: a number is its value; an operator node evaluates its left
   * child, then its right child, then applies `+`, `-`, `*` or truncating `/`,
   * and throws "Unknown operation" for any other operator.
   */
  function Evaluate(e: Node): (r: Result<int, Error>)
    requires Safe(e)
    decreases e, 1
    ensures r.Ok? ==> IsInt32(r.value)
  {
    match e
    case Number(v) => Ok(v)
    case BinaryOp(op, l, r) =>
      var a :- Evaluate(l);
      var b :- Evaluate(r);
      Apply(op, a, b)
  }

  /** `op` labels some operator node of the tree. */
  predicate HasOp(e: Node, op: string) {
    match e
    case Number(_) => false
    case BinaryOp(o, l, r) => o == op || HasOp(l, op) || HasOp(r, op)
  }

  /**
   * The first unknown operator in the order `evaluate` meets them: the left
   * child's, then the right child's, then the node's own.
   */
  function FirstUnknownOp(e: Node): (op: string)
    requires !KnownOps(e)
    ensures HasOp(e, op) && !KnownOp(op)
  {
    match e
    case BinaryOp(o, l, r) =>
      if !KnownOps(l) then FirstUnknownOp(l)
      else if !KnownOps(r) then FirstUnknownOp(r)
      else o
  }

  /**
   * `evaluate` throws exactly when the tree holds an operator other than
   * `+ - * /`, and its message names the first such operator in evaluation
   * order.
   */
  lemma {:induction false} EvaluateFailsIffUnknownOp(e: Node)
    requires Safe(e)
    ensures Evaluate(e).Err? <==> !KnownOps(e)
    ensures !KnownOps(e) ==> Evaluate(e) == Err(UnknownOperation(FirstUnknownOp(e)))
  {
    match e
    case Number(_) =>
    case BinaryOp(op, l, r) =>
      EvaluateFailsIffUnknownOp(l);
      EvaluateFailsIffUnknownOp(r);
  }

  /** C++ division agrees with Dafny's on non-negative operands and truncates toward zero on negative ones. */
  lemma TruncDivExamples()
    ensures forall a: nat, b: int :: b > 0 ==> TruncDiv(a, b) == a / b
    ensures TruncDiv(-7, 2) == -3 && -7 / 2 == -4
    ensures TruncDiv(7, -2) == -3 && TruncDiv(-7, -2) == 3
  {
  }
}
