/** `calculate` of the `calculator` module: evaluates a token sequence in
    reverse Polish order on a stack of values. Floating point is replaced by
    exact `real` arithmetic; division and `powf` are parameters. */
module Rpn {
  import opened Errors
  import opened Tokens

  /** f64 division (IEEE results for a zero divisor) and `f64::powf`, left abstract. */
  datatype FloatOps = FloatOps(divide: (real, real) -> real, power: (real, real) -> real)

  /** Division that agrees with exact division wherever the divisor is not zero. */
  ghost predicate ExactQuotients(f: FloatOps) {
    forall a: real, b: real :: b != 0.0 ==> f.divide(a, b) == a / b
  }

  datatype Option<T> = None | Some(value: T)

  /** The `match` on the operator kind: `l op r`. */
  function Apply(op: TokenType, l: real, r: real, f: FloatOps): real
    requires op != Number
  {
    match op
    case Divide => f.divide(l, r)
    case Multiply => l * r
    case Minus => l - r
    case Plus => l + r
    case Power => f.power(l, r)
  }

  /** One token on the stack (top at the end). An operator that finds fewer
      than two values still pops what there is and pushes nothing. */
  function Eat(st: seq<real>, t: Token, f: FloatOps): seq<real> {
    if t.kind == Number then st + [t.value]
    else if |st| >= 2 then st[..|st| - 2] + [Apply(t.kind, st[|st| - 2], st[|st| - 1], f)]
    else []
  }

  /** The stack after eating all of `ts`, starting from `st`. */
  function Stack(st: seq<real>, ts: seq<Token>, f: FloatOps): seq<real> {
    if ts == [] then st else Eat(Stack(st, ts[..|ts| - 1], f), ts[|ts| - 1], f)
  }

  /** What `calculate` returns: the one value left, or an error. */
  function Calculation(ts: seq<Token>, f: FloatOps): Result<real> {
    var st := Stack([], ts, f);
    if |st| == 1 then Ok(st[0]) else Err(MalformedExpression)
  }

  method Calculate(tokens: seq<Token>, f: FloatOps) returns (r: Result<real>)
    ensures r == Calculation(tokens, f)
  {
    var processingNumbers: seq<real> := [];
    for i := 0 to |tokens|
      invariant processingNumbers == Stack([], tokens[..i], f)
    {
      var t := tokens[i];
      assert tokens[..i + 1][..i] == tokens[..i];
      if t.kind == Number {
        processingNumbers := processingNumbers + [t.value];
      }
      if t.IsOperator() {
        var rOperand: Option<real> := None;
        var lOperand: Option<real> := None;
        if |processingNumbers| > 0 {
          rOperand := Some(processingNumbers[|processingNumbers| - 1]);
          processingNumbers := processingNumbers[..|processingNumbers| - 1];
        }
        if |processingNumbers| > 0 {
          lOperand := Some(processingNumbers[|processingNumbers| - 1]);
          processingNumbers := processingNumbers[..|processingNumbers| - 1];
        }
        if rOperand.Some? && lOperand.Some? {
          var result := Apply(t.kind, lOperand.value, rOperand.value, f);
          processingNumbers := processingNumbers + [result];
        }
      }
    }
    assert tokens[..|tokens|] == tokens;
    if |processingNumbers| == 1 {
      r := Ok(processingNumbers[0]);
    } else {
      r := Err(MalformedExpression);
    }
  }

  // ----- well-formed reverse Polish sequences -----

  /** Numbers minus operators. */
  function Depth(ts: seq<Token>): int {
    if ts == [] then 0 else Depth(ts[..|ts| - 1]) + (if ts[|ts| - 1].kind == Number then 1 else -1)
  }

  /** Every non-empty prefix has more numbers than operators. */
  predicate PrefixesPositive(ts: seq<Token>) {
    forall k :: 1 <= k <= |ts| ==> Depth(ts[..k]) >= 1
  }

  /** Valid reverse Polish notation: every non-empty prefix has more numbers
      than operators, and the whole has exactly one more. */
  predicate ValidRpn(ts: seq<Token>) {
    PrefixesPositive(ts) && Depth(ts) == 1
  }

  lemma DepthSnoc(ts: seq<Token>, t: Token)
    ensures Depth(ts + [t]) == Depth(ts) + (if t.kind == Number then 1 else -1)
  {
    assert (ts + [t])[..|ts|] == ts;
  }

  /** Extending a sequence whose prefixes are positive keeps them positive
      as long as the new whole is. */
  lemma PrefixesPositiveSnoc(ts: seq<Token>, t: Token)
    requires PrefixesPositive(ts) && Depth(ts + [t]) >= 1
    ensures PrefixesPositive(ts + [t])
  {
    forall k | 1 <= k <= |ts| + 1
      ensures Depth((ts + [t])[..k]) >= 1
    {
      if k <= |ts| {
        assert (ts + [t])[..k] == ts[..k];
      } else {
        assert (ts + [t])[..k] == ts + [t];
      }
    }
  }

  lemma PrefixesPositiveInit(ts: seq<Token>)
    requires ts != [] && PrefixesPositive(ts)
    ensures PrefixesPositive(ts[..|ts| - 1])
  {
    var p := ts[..|ts| - 1];
    forall k | 1 <= k <= |p|
      ensures Depth(p[..k]) >= 1
    {
      assert p[..k] == ts[..k];
    }
  }

  // ----- properties of the evaluator -----

  /** Eating `a + b` is eating `a`, then `b`. */
  lemma {:induction false} StackAppend(st: seq<real>, a: seq<Token>, b: seq<Token>, f: FloatOps)
    ensures Stack(st, a + b, f) == Stack(Stack(st, a, f), b, f)
    decreases |b|
  {
    if b == [] {
      assert a + b == a;
    } else {
      assert (a + b)[..|a + b| - 1] == a + b[..|b| - 1];
      StackAppend(st, a, b[..|b| - 1], f);
    }
  }

  /** When every prefix has more numbers than operators, no operator ever
      finds fewer than two values, and the stack holds exactly Depth values. */
  lemma {:induction false} StackHeight(ts: seq<Token>, f: FloatOps)
    requires PrefixesPositive(ts)
    ensures |Stack([], ts, f)| == Depth(ts)
    decreases |ts|
  {
    if ts != [] {
      var p := ts[..|ts| - 1];
      PrefixesPositiveInit(ts);
      StackHeight(p, f);
      assert ts[..|ts|] == ts;
    }
  }

  /** Valid reverse Polish notation always evaluates to `Ok`. */
  lemma ValidRpnEvaluates(ts: seq<Token>, f: FloatOps)
    requires ValidRpn(ts)
    ensures Calculation(ts, f).Ok?
  {
    StackHeight(ts, f);
  }

  /** An operator that finds fewer than two values discards them: whatever
      came before it no longer matters to the result. */
  lemma DeficientOperatorForgets(p: seq<Token>, op: Token, rest: seq<Token>, f: FloatOps)
    requires op.IsOperator() && |Stack([], p, f)| < 2
    ensures Calculation(p + [op] + rest, f) == Calculation(rest, f)
  {
    StackAppend([], p + [op], rest, f);
    assert (p + [op])[..|p|] == p;
    assert Stack([], p + [op], f) == [];
  }

  /** The operand before a deficient operator is lost rather than reported:
      the tokens `2 + 3`, read as reverse Polish, evaluate to 3. */
  lemma SilentSkipExample(f: FloatOps)
    ensures Calculation([NumberToken(2.0), OperatorToken(Plus), NumberToken(3.0)], f) == Ok(3.0)
  {
    var two, plus, three := NumberToken(2.0), OperatorToken(Plus), NumberToken(3.0);
    assert [two][..0] == [] && [three][..0] == [];
    assert Stack([], [two], f) == [2.0];
    DeficientOperatorForgets([two], plus, [three], f);
    assert [two] + [plus] + [three] == [two, plus, three];
    assert Stack([], [three], f) == [3.0];
  }

  // ----- a reference semantics: expression trees -----

  /** A binary expression tree over numbers. */
  datatype Term = Leaf(value: real) | Node(op: TokenType, left: Term, right: Term)

  predicate ValidTerm(e: Term) {
    match e
    case Leaf(_) => true
    case Node(op, l, r) => op != Number && ValidTerm(l) && ValidTerm(r)
  }

  /** The value of a tree, evaluated directly. */
  function Eval(e: Term, f: FloatOps): real
    requires ValidTerm(e)
  {
    match e
    case Leaf(v) => v
    case Node(op, l, r) => Apply(op, Eval(l, f), Eval(r, f), f)
  }

  /** The tree in reverse Polish order: left operand, right operand, operator. */
  function Postorder(e: Term): seq<Token>
    requires ValidTerm(e)
  {
    match e
    case Leaf(v) => [NumberToken(v)]
    case Node(op, l, r) => Postorder(l) + Postorder(r) + [OperatorToken(op)]
  }

  lemma {:induction false} StackPostorder(st: seq<real>, e: Term, f: FloatOps)
    requires ValidTerm(e)
    ensures Stack(st, Postorder(e), f) == st + [Eval(e, f)]
    decreases e
  {
    match e
    case Leaf(v) =>
    case Node(op, l, r) =>
      StackAppend(st, Postorder(l) + Postorder(r), [OperatorToken(op)], f);
      StackAppend(st, Postorder(l), Postorder(r), f);
      StackPostorder(st, l, f);
      StackPostorder(st + [Eval(l, f)], r, f);
      assert (st + [Eval(l, f)] + [Eval(r, f)])[..|st|] == st;
  }

  /** The stack machine computes what the tree denotes: `calculate` on the
      postorder of any tree returns that tree's value. */
  lemma CalculatePostorder(e: Term, f: FloatOps)
    requires ValidTerm(e)
    ensures Calculation(Postorder(e), f) == Ok(Eval(e, f))
  {
    StackPostorder([], e, f);
  }
}
