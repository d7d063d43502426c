/** The behaviours the unit tests check, stated as lemmas about the model:
    first for every expression of one or two operators, then for the tests'
    own inputs. */
module Scenarios {
  import opened Errors
  import opened Tokens
  import opened Lexer
  import opened Shunting
  import opened Rpn
  import opened Calculator

  // ----- conversion of short infix sequences -----

  /** After `a op b` the output holds both numbers and the stack the operator. */
  lemma ConvertedBinary(a: Token, op: Token, b: Token)
    requires a.kind == Number && b.kind == Number && op.IsOperator()
    ensures Converted([a, op, b]) == Conversion([a, b], [op])
  {
    var ts := [a, op, b];
    assert ts[..2][..1] == ts[..1] && ts[..1][..0] == [] && ts[..3] == ts;
    assert Converted(ts[..1]) == Conversion([a], []);
    assert PopWhile(Conversion([a], []), op) == Conversion([a], []);
    assert Converted(ts[..2]) == Conversion([a], [op]);
  }

  lemma BinaryConversion(a: Token, op: Token, b: Token)
    requires a.kind == Number && b.kind == Number && op.IsOperator()
    ensures ReversePolish([a, op, b]) == [a, b, op]
  {
    ConvertedBinary(a, op, b);
    assert [op][..0] == [];
    assert Drain(Conversion([a, b], [op])) == Drain(Conversion([a, b] + [op], []));
  }

  /** With two operators, the first is applied first exactly when it leaves
      the stack before the second: higher precedence, or equal precedence and
      left associativity. */
  lemma ChainConversion(a: Token, o1: Token, b: Token, o2: Token, c: Token)
    requires a.kind == Number && b.kind == Number && c.kind == Number
    requires o1.IsOperator() && o2.IsOperator()
    ensures ReversePolish([a, o1, b, o2, c]) ==
      if PopsBefore(o1, o2) then [a, b, o1, c, o2] else [a, b, c, o2, o1]
  {
    var ts := [a, o1, b, o2, c];
    assert ts[..4][..3] == [a, o1, b] && ts[..5][..4] == ts[..4] && ts[..5] == ts;
    ConvertedBinary(a, o1, b);
    var q := Conversion([a, b], [o1]);
    assert [o1][..0] == [];
    assert Converted(ts[..4]) == Push(q, o2);
    assert Converted(ts) == Push(Push(q, o2), c);
    if PopsBefore(o1, o2) {
      assert PopWhile(q, o2) == PopWhile(Conversion([a, b, o1], []), o2);
      assert Push(q, o2) == Conversion([a, b, o1], [o2]);
      assert Converted(ts) == Conversion([a, b, o1, c], [o2]);
      assert [o2][..0] == [];
      assert Drain(Conversion([a, b, o1, c], [o2])) == Drain(Conversion([a, b, o1, c] + [o2], []));
    } else {
      assert Push(q, o2) == Conversion([a, b], [o1, o2]);
      assert Converted(ts) == Conversion([a, b, c], [o1, o2]);
      assert [o1, o2][..1] == [o1] && [a, b, c] + [o2] == [a, b, c, o2];
      assert Drain(Conversion([a, b, c], [o1, o2])) == Drain(Conversion([a, b, c, o2], [o1]));
      assert Drain(Conversion([a, b, c, o2], [o1])) == Drain(Conversion([a, b, c, o2] + [o1], []));
    }
  }

  /** `2 ^ 2 ^ 3` converts to `2 2 3 ^ ^`, `4 - 7 - 9` to `4 7 - 9 -`. */
  lemma AssociativityConversions()
    ensures var pow, minus := OperatorToken(Power), OperatorToken(Minus);
      var n2, n3, n4, n7, n9 := NumberToken(2.0), NumberToken(3.0), NumberToken(4.0), NumberToken(7.0), NumberToken(9.0);
      && ReversePolish([n2, pow, n2, pow, n3]) == [n2, n2, n3, pow, pow]
      && ReversePolish([n4, minus, n7, minus, n9]) == [n4, n7, minus, n9, minus]
  {
    var pow, minus := OperatorToken(Power), OperatorToken(Minus);
    ChainConversion(NumberToken(2.0), pow, NumberToken(2.0), pow, NumberToken(3.0));
    ChainConversion(NumberToken(4.0), minus, NumberToken(7.0), minus, NumberToken(9.0));
  }

  // ----- evaluation of expressions with one or two operators -----

  /** The text of `x op y` for integers. */
  function BinaryText(x: int, op: char, y: int): string {
    IntLiteral(x).Spelling() + [op] + IntLiteral(y).Spelling()
  }

  function ChainText(x: int, o1: char, y: int, o2: char, z: int): string {
    IntLiteral(x).Spelling() + [o1] + IntLiteral(y).Spelling() + [o2] + IntLiteral(z).Spelling()
  }

  lemma TailOne(o: char, l: Literal)
    requires IsOperatorChar(o) && l.Valid()
    ensures Tail([(o, l)]) == [o] + l.Spelling()
    ensures TailTokens([(o, l)]) == [OperatorToken(OperatorKind(o)), NumberToken(l.Value())]
  {
    assert [(o, l)][1..] == [];
  }

  lemma TailTwo(o1: char, l1: Literal, o2: char, l2: Literal)
    requires IsOperatorChar(o1) && l1.Valid() && IsOperatorChar(o2) && l2.Valid()
    ensures Tail([(o1, l1), (o2, l2)]) == [o1] + l1.Spelling() + [o2] + l2.Spelling()
    ensures TailTokens([(o1, l1), (o2, l2)]) ==
      [OperatorToken(OperatorKind(o1)), NumberToken(l1.Value()), OperatorToken(OperatorKind(o2)), NumberToken(l2.Value())]
  {
    assert [(o1, l1), (o2, l2)][1..] == [(o2, l2)];
    TailOne(o2, l2);
  }

  lemma LexedLiteralPair(l0: Literal, op: char, l1: Literal)
    requires l0.Valid() && l1.Valid() && IsOperatorChar(op)
    ensures Lexed(l0.Spelling() + [op] + l1.Spelling()) ==
      Ok([NumberToken(l0.Value()), OperatorToken(OperatorKind(op)), NumberToken(l1.Value())])
  {
    var e := Infix(l0, [(op, l1)]);
    TailOne(op, l1);
    assert WellFormed(e);
    assert Text(e) == l0.Spelling() + [op] + l1.Spelling();
    var a, o, b := NumberToken(l0.Value()), OperatorToken(OperatorKind(op)), NumberToken(l1.Value());
    assert [a] + [o, b] == [a, o, b];
    WellFormedTokens(e);
  }

  lemma LexedBinary(x: int, op: char, y: int)
    requires IsOperatorChar(op)
    ensures Lexed(BinaryText(x, op, y)) ==
      Ok([NumberToken(x as real), OperatorToken(OperatorKind(op)), NumberToken(y as real)])
  {
    IntLiteralRoundTrip(x);
    IntLiteralRoundTrip(y);
    LexedLiteralPair(IntLiteral(x), op, IntLiteral(y));
  }

  lemma LexedLiterals(l0: Literal, o1: char, l1: Literal, o2: char, l2: Literal)
    requires l0.Valid() && l1.Valid() && l2.Valid() && IsOperatorChar(o1) && IsOperatorChar(o2)
    ensures Lexed(l0.Spelling() + [o1] + l1.Spelling() + [o2] + l2.Spelling()) ==
      Ok([NumberToken(l0.Value()), OperatorToken(OperatorKind(o1)), NumberToken(l1.Value()),
          OperatorToken(OperatorKind(o2)), NumberToken(l2.Value())])
  {
    var e := Infix(l0, [(o1, l1), (o2, l2)]);
    TailTwo(o1, l1, o2, l2);
    assert WellFormed(e);
    assert Text(e) == l0.Spelling() + [o1] + l1.Spelling() + [o2] + l2.Spelling();
    var a, p, b := NumberToken(l0.Value()), OperatorToken(OperatorKind(o1)), NumberToken(l1.Value());
    var q, c := OperatorToken(OperatorKind(o2)), NumberToken(l2.Value());
    assert [a] + [p, b, q, c] == [a, p, b, q, c];
    WellFormedTokens(e);
  }

  lemma LexedChain(x: int, o1: char, y: int, o2: char, z: int)
    requires IsOperatorChar(o1) && IsOperatorChar(o2)
    ensures Lexed(ChainText(x, o1, y, o2, z)) ==
      Ok([NumberToken(x as real), OperatorToken(OperatorKind(o1)), NumberToken(y as real),
          OperatorToken(OperatorKind(o2)), NumberToken(z as real)])
  {
    IntLiteralRoundTrip(x);
    IntLiteralRoundTrip(y);
    IntLiteralRoundTrip(z);
    LexedLiterals(IntLiteral(x), o1, IntLiteral(y), o2, IntLiteral(z));
  }

  lemma BinaryEvaluation(x: int, op: char, y: int, f: FloatOps)
    requires IsOperatorChar(op)
    ensures Evaluation(BinaryText(x, op, y), f) == Ok(Apply(OperatorKind(op), x as real, y as real, f))
  {
    LexedBinary(x, op, y);
    var a, o, b := NumberToken(x as real), OperatorToken(OperatorKind(op)), NumberToken(y as real);
    BinaryConversion(a, o, b);
    assert Evaluation(BinaryText(x, op, y), f) == Calculation([a, b, o], f);
    BinaryCalculation(x as real, OperatorKind(op), y as real, f);
  }

  /** Two numbers and an operator evaluate to the operator applied to them. */
  lemma BinaryCalculation(x: real, k: TokenType, y: real, f: FloatOps)
    requires k != Number
    ensures Calculation([NumberToken(x), NumberToken(y), OperatorToken(k)], f) == Ok(Apply(k, x, y, f))
  {
    var e := Node(k, Leaf(x), Leaf(y));
    assert ValidTerm(Leaf(x)) && ValidTerm(Leaf(y));
    assert ValidTerm(e);
    assert Postorder(e) == [NumberToken(x)] + [NumberToken(y)] + [OperatorToken(k)]
      == [NumberToken(x), NumberToken(y), OperatorToken(k)];
    assert Eval(e, f) == Apply(k, Eval(Leaf(x), f), Eval(Leaf(y), f), f) == Apply(k, x, y, f);
    CalculatePostorder(e, f);
  }

  /** The tree `x o1 y o2 z` is read as: the first operator binds tighter
      when it leaves the stack before the second. */
  function ChainTree(x: real, k1: TokenType, y: real, k2: TokenType, z: real): (e: Term)
    requires k1 != Number && k2 != Number
    ensures ValidTerm(e)
  {
    if PopsBefore(OperatorToken(k1), OperatorToken(k2)) then
      var l := Node(k1, Leaf(x), Leaf(y));
      assert ValidTerm(l);
      Node(k2, l, Leaf(z))
    else
      var r := Node(k2, Leaf(y), Leaf(z));
      assert ValidTerm(r);
      Node(k1, Leaf(x), r)
  }

  /** Two operators: which one applies first is decided by precedence, then
      associativity. */
  lemma ChainEvaluation(x: int, o1: char, y: int, o2: char, z: int, f: FloatOps)
    requires IsOperatorChar(o1) && IsOperatorChar(o2)
    ensures Evaluation(ChainText(x, o1, y, o2, z), f) ==
      Ok(Eval(ChainTree(x as real, OperatorKind(o1), y as real, OperatorKind(o2), z as real), f))
  {
    LexedChain(x, o1, y, o2, z);
    var k1, k2 := OperatorKind(o1), OperatorKind(o2);
    var ts := [NumberToken(x as real), OperatorToken(k1), NumberToken(y as real), OperatorToken(k2), NumberToken(z as real)];
    ChainPostorder(x as real, k1, y as real, k2, z as real);
    var e := ChainTree(x as real, k1, y as real, k2, z as real);
    assert Evaluation(ChainText(x, o1, y, o2, z), f) == Calculation(ReversePolish(ts), f);
    CalculatePostorder(e, f);
  }

  lemma ChainPostorder(x: real, k1: TokenType, y: real, k2: TokenType, z: real)
    requires k1 != Number && k2 != Number
    ensures ReversePolish([NumberToken(x), OperatorToken(k1), NumberToken(y), OperatorToken(k2), NumberToken(z)])
      == Postorder(ChainTree(x, k1, y, k2, z))
  {
    var a, p, b, q, c := NumberToken(x), OperatorToken(k1), NumberToken(y), OperatorToken(k2), NumberToken(z);
    ChainConversion(a, p, b, q, c);
    var e := ChainTree(x, k1, y, k2, z);
    if PopsBefore(p, q) {
      assert Postorder(e.left) == [a, b, p];
      assert Postorder(e) == [a, b, p] + [c] + [q] == [a, b, p, c, q];
    } else {
      assert Postorder(e.right) == [b, c, q];
      assert Postorder(e) == [a] + [b, c, q] + [p] == [a, b, c, q, p];
    }
  }

  /** The spelling of a two-digit integer. */
  lemma TwoDigits(n: int)
    requires 10 <= n < 100
    ensures IntLiteral(n).Spelling() == [DigitChar(n / 10), DigitChar(n % 10)]
  {
    assert NatDigits(n) == NatDigits(n / 10) + [DigitChar(n % 10)];
  }

  /** The spelling of a one-digit integer and of its negation. */
  lemma Digit(d: int)
    requires 0 <= d < 10
    ensures IntLiteral(d).Spelling() == [DigitChar(d)]
    ensures 0 < d ==> IntLiteral(-d).Spelling() == "-" + [DigitChar(d)]
  {
    assert IntLiteral(-d).whole == NatDigits(d);
  }

  lemma AdditionTest(f: FloatOps)
    ensures Evaluation("2+5", f) == Ok(7.0)
  {
    Digit(2);
    Digit(5);
    assert BinaryText(2, '+', 5) == "2+5";
    BinaryEvaluation(2, '+', 5, f);
  }

  lemma SubtractionTest(f: FloatOps)
    ensures Evaluation("2-5", f) == Ok(-3.0)
  {
    Digit(2);
    Digit(5);
    assert BinaryText(2, '-', 5) == "2-5";
    BinaryEvaluation(2, '-', 5, f);
  }

  lemma MultiplyTest(f: FloatOps)
    ensures Evaluation("2*5", f) == Ok(10.0)
  {
    Digit(2);
    Digit(5);
    assert BinaryText(2, '*', 5) == "2*5";
    BinaryEvaluation(2, '*', 5, f);
  }

  lemma DivisionTest(f: FloatOps)
    requires ExactQuotients(f)
    ensures Evaluation("6/2", f) == Ok(3.0)
  {
    Digit(6);
    Digit(2);
    assert BinaryText(6, '/', 2) == "6/2";
    BinaryEvaluation(6, '/', 2, f);
  }

  /** The power is whatever `powf` returns for 6 and 2. */
  lemma PowerTest(f: FloatOps)
    ensures Evaluation("6^2", f) == Ok(f.power(6.0, 2.0))
  {
    Digit(6);
    Digit(2);
    assert BinaryText(6, '^', 2) == "6^2";
    BinaryEvaluation(6, '^', 2, f);
  }

  /** A minus sign directly after an operator starts a negative literal. */
  lemma NegativeExponentTest(f: FloatOps)
    ensures Evaluation("2^-2", f) == Ok(f.power(2.0, -2.0))
  {
    Digit(2);
    assert BinaryText(2, '^', -2) == "2^-2";
    BinaryEvaluation(2, '^', -2, f);
  }

  lemma NegativeAddendTest(f: FloatOps)
    ensures Evaluation("3+-6", f) == Ok(-3.0)
  {
    Digit(3);
    Digit(6);
    assert BinaryText(3, '+', -6) == "3+-6";
    BinaryEvaluation(3, '+', -6, f);
  }

  lemma NegativeSubtrahendTest(f: FloatOps)
    ensures Evaluation("6--2", f) == Ok(8.0)
  {
    Digit(2);
    Digit(6);
    assert BinaryText(6, '-', -2) == "6--2";
    BinaryEvaluation(6, '-', -2, f);
  }

  lemma NegativeFactorTest(f: FloatOps)
    ensures Evaluation("4*-2", f) == Ok(-8.0)
  {
    Digit(2);
    Digit(4);
    assert BinaryText(4, '*', -2) == "4*-2";
    BinaryEvaluation(4, '*', -2, f);
  }

  lemma NegativeDivisorTest(f: FloatOps)
    requires ExactQuotients(f)
    ensures Evaluation("6/-2", f) == Ok(-3.0)
  {
    Digit(2);
    Digit(6);
    assert BinaryText(6, '/', -2) == "6/-2";
    BinaryEvaluation(6, '/', -2, f);
  }

  /** `*`, `-` and `/` group to the left, `^` to the right. */
  lemma ProductChainTest(f: FloatOps)
    ensures Evaluation("2*3*4", f) == Ok(24.0)
  {
    Digit(2);
    Digit(3);
    Digit(4);
    ChainEvaluation(2, '*', 3, '*', 4, f);
    assert OperatorKind('*') == Multiply;
    assert ChainTree(2.0, Multiply, 3.0, Multiply, 4.0) == Node(Multiply, Node(Multiply, Leaf(2.0), Leaf(3.0)), Leaf(4.0));
    assert Eval(Node(Multiply, Leaf(2.0), Leaf(3.0)), f) == 6.0;
    assert Eval(Node(Multiply, Node(Multiply, Leaf(2.0), Leaf(3.0)), Leaf(4.0)), f) == 24.0;
    assert ChainText(2, '*', 3, '*', 4) == "2*3*4";
  }

  lemma DifferenceChainTest(f: FloatOps)
    ensures Evaluation("4-7-9", f) == Ok(-12.0)
  {
    Digit(4);
    Digit(7);
    Digit(9);
    ChainEvaluation(4, '-', 7, '-', 9, f);
    assert OperatorKind('-') == Minus;
    assert ChainTree(4.0, Minus, 7.0, Minus, 9.0) == Node(Minus, Node(Minus, Leaf(4.0), Leaf(7.0)), Leaf(9.0));
    assert Eval(Node(Minus, Leaf(4.0), Leaf(7.0)), f) == -3.0;
    assert Eval(Node(Minus, Node(Minus, Leaf(4.0), Leaf(7.0)), Leaf(9.0)), f) == -12.0;
    assert ChainText(4, '-', 7, '-', 9) == "4-7-9";
  }

  lemma QuotientChainTest(f: FloatOps)
    requires ExactQuotients(f)
    ensures Evaluation("18/3/2", f) == Ok(3.0)
  {
    QuotientChainText();
    ChainEvaluation(18, '/', 3, '/', 2, f);
    assert OperatorKind('/') == Divide;
    assert ChainTree(18.0, Divide, 3.0, Divide, 2.0) == Node(Divide, Node(Divide, Leaf(18.0), Leaf(3.0)), Leaf(2.0));
    assert Eval(Node(Divide, Leaf(18.0), Leaf(3.0)), f) == 6.0;
    assert Eval(Node(Divide, Node(Divide, Leaf(18.0), Leaf(3.0)), Leaf(2.0)), f) == 3.0;
  }

  lemma QuotientChainText()
    ensures ChainText(18, '/', 3, '/', 2) == "18/3/2"
  {
    TwoDigits(18);
    assert IntLiteral(18).Spelling() == "18";
    Digit(3);
    Digit(2);
  }

  lemma PowerChainTest(f: FloatOps)
    ensures Evaluation("2^2^3", f) == Ok(f.power(2.0, f.power(2.0, 3.0)))
  {
    Digit(2);
    Digit(3);
    ChainEvaluation(2, '^', 2, '^', 3, f);
    assert OperatorKind('^') == Power;
    assert ChainTree(2.0, Power, 2.0, Power, 3.0) == Node(Power, Leaf(2.0), Node(Power, Leaf(2.0), Leaf(3.0)));
    assert Eval(Node(Power, Leaf(2.0), Leaf(3.0)), f) == f.power(2.0, 3.0);
    assert Eval(Node(Power, Leaf(2.0), Node(Power, Leaf(2.0), Leaf(3.0))), f) == f.power(2.0, f.power(2.0, 3.0));
    assert ChainText(2, '^', 2, '^', 3) == "2^2^3";
  }

  /** Multiplication binds tighter than addition on either side. */
  lemma PrecedenceTest(f: FloatOps)
    ensures Evaluation("2+3*4", f) == Ok(14.0)
  {
    Digit(2);
    Digit(3);
    Digit(4);
    ChainEvaluation(2, '+', 3, '*', 4, f);
    assert OperatorKind('+') == Plus && OperatorKind('*') == Multiply;
    assert ChainTree(2.0, Plus, 3.0, Multiply, 4.0) == Node(Plus, Leaf(2.0), Node(Multiply, Leaf(3.0), Leaf(4.0)));
    assert Eval(Node(Multiply, Leaf(3.0), Leaf(4.0)), f) == 12.0;
    assert Eval(Node(Plus, Leaf(2.0), Node(Multiply, Leaf(3.0), Leaf(4.0))), f) == 14.0;
    assert ChainText(2, '+', 3, '*', 4) == "2+3*4";
  }

  lemma PrecedenceFirstTest(f: FloatOps)
    ensures Evaluation("2*3+4", f) == Ok(10.0)
  {
    Digit(2);
    Digit(3);
    Digit(4);
    ChainEvaluation(2, '*', 3, '+', 4, f);
    assert OperatorKind('*') == Multiply && OperatorKind('+') == Plus;
    assert ChainTree(2.0, Multiply, 3.0, Plus, 4.0) == Node(Plus, Node(Multiply, Leaf(2.0), Leaf(3.0)), Leaf(4.0));
    assert Eval(Node(Multiply, Leaf(2.0), Leaf(3.0)), f) == 6.0;
    assert Eval(Node(Plus, Node(Multiply, Leaf(2.0), Leaf(3.0)), Leaf(4.0)), f) == 10.0;
    assert ChainText(2, '*', 3, '+', 4) == "2*3+4";
  }

  /** Parentheses are not operators: they are skipped, so precedence alone
      decides, and unbalanced ones are no error. */
  lemma ParenthesesIgnoredTest(f: FloatOps)
    ensures Evaluation("2*(12+6)", f) == Ok(30.0)
  {
    DropParentheses(f);
    WithoutParentheses(f);
  }

  lemma DropParentheses(f: FloatOps)
    ensures Evaluation("2*(12+6)", f) == Evaluation("2*12+6", f)
  {
    assert "2*(12+6)" == "2*" + ['('] + "12+6" + [')'];
    assert "2*12+6" == "2*" + "12+6";
    InsertTwoInert("2*", '(', "12+6", ')', f);
  }

  lemma InsertTwoInert(a: string, c: char, b: string, d: char, f: FloatOps)
    requires Inert(c) && Inert(d)
    ensures Evaluation(a + [c] + b + [d], f) == Evaluation(a + b, f)
  {
    InsertInert(a + [c] + b, d, [], f);
    assert a + [c] + b + [d] + [] == a + [c] + b + [d];
    assert a + [c] + b + [] == a + [c] + b;
    InsertInert(a, c, b, f);
  }

  lemma WithoutParentheses(f: FloatOps)
    ensures Evaluation("2*12+6", f) == Ok(30.0)
  {
    WithoutParenthesesText();
    ChainEvaluation(2, '*', 12, '+', 6, f);
    assert OperatorKind('*') == Multiply && OperatorKind('+') == Plus;
    assert ChainTree(2.0, Multiply, 12.0, Plus, 6.0) == Node(Plus, Node(Multiply, Leaf(2.0), Leaf(12.0)), Leaf(6.0));
    assert Eval(Node(Multiply, Leaf(2.0), Leaf(12.0)), f) == 24.0;
    assert Eval(Node(Plus, Node(Multiply, Leaf(2.0), Leaf(12.0)), Leaf(6.0)), f) == 30.0;
  }

  lemma WithoutParenthesesText()
    ensures ChainText(2, '*', 12, '+', 6) == "2*12+6"
  {
    TwoDigits(12);
    assert IntLiteral(12).Spelling() == "12";
    Digit(2);
    Digit(6);
  }

  lemma OpenParenthesisTest(f: FloatOps)
    ensures Evaluation("(1+2", f) == Ok(3.0)
  {
    assert "(1+2" == "" + ['('] + "1+2";
    InsertInert("", '(', "1+2", f);
    assert "" + "1+2" == "1+2";
    OnePlusTwo(f);
  }

  lemma CloseParenthesisTest(f: FloatOps)
    ensures Evaluation("1+2)", f) == Ok(3.0)
  {
    assert "1+2)" == "1+2" + [')'] + "";
    InsertInert("1+2", ')', "", f);
    assert "1+2" + "" == "1+2";
    OnePlusTwo(f);
  }

  lemma OnePlusTwo(f: FloatOps)
    ensures Evaluation("1+2", f) == Ok(3.0)
  {
    Digit(1);
    Digit(2);
    assert BinaryText(1, '+', 2) == "1+2";
    BinaryEvaluation(1, '+', 2, f);
  }

  /** Removing one inert character anywhere does not change the result. */
  lemma InsertInert(a: string, c: char, b: string, f: FloatOps)
    requires Inert(c)
    ensures Lexed(a + [c] + b) == Lexed(a + b)
    ensures Evaluation(a + [c] + b, f) == Evaluation(a + b, f)
  {
    InertCharactersDropped(a + [c] + b);
    InertCharactersDropped(a + b);
    DropInertAppend(a + [c], b);
    DropInertAppend(a, [c]);
    DropInertAppend(a, b);
    assert DropInert([c]) == [];
    assert DropInert(a) + [] == DropInert(a);
  }

  /** Input that ends after an operator is an error. */
  lemma TrailingOperatorTest(f: FloatOps)
    ensures Evaluation("2+", f) == Err(InvalidEndOfExpression)
  {
    IntLiteralRoundTrip(2);
    Digit(2);
    assert NewToken("2") == Ok(NumberToken(2.0));
    var sc := Scanner([], "2", InNumber);
    assert Step(Start, '2') == Running(sc);
    assert Step(sc, '+') == Running(Scanner([NumberToken(2.0)], "+", InOperator));
    assert "2+"[1..] == "+" && "+"[1..] == [];
    assert Run(Start, "2+") == Running(Scanner([NumberToken(2.0)], "+", InOperator));
  }

  /** A letter stops the scan with an error that names it. */
  lemma LetterTest(f: FloatOps)
    ensures Evaluation("abc", f) == Err(InvalidCharacter('a'))
  {
    assert "abc"[..0] == [];
    AlphabeticStops("abc", 0);
  }

  // ----- the chained expression `2+4-2*2/2^4` -----

  lemma TailCons(o: char, l: Literal, r: seq<(char, Literal)>)
    requires IsOperatorChar(o) && l.Valid() && ValidPairs(r)
    ensures ValidPairs([(o, l)] + r)
    ensures Tail([(o, l)] + r) == [o] + l.Spelling() + Tail(r)
    ensures TailTokens([(o, l)] + r) == [OperatorToken(OperatorKind(o)), NumberToken(l.Value())] + TailTokens(r)
  {
    var r' := [(o, l)] + r;
    assert r'[1..] == r;
    forall i | 1 <= i < |r'|
      ensures IsOperatorChar(r'[i].0) && r'[i].1.Valid()
    {
      assert r'[i] == r[i - 1];
    }
  }

  /** `2+4-2*2/2^4` as a first literal and operator/literal pairs. */
  function Chained(two: Literal, four: Literal): Infix {
    Infix(two, [('+', four), ('-', two), ('*', two), ('/', two), ('^', four)])
  }

  /** The pairs `*2/2^4` that end `Chained`. */
  function ProductPairs(two: Literal, four: Literal): seq<(char, Literal)> {
    [('*', two), ('/', two), ('^', four)]
  }

  lemma ChainedRest(two: Literal, four: Literal)
    ensures Chained(two, four).rest == [('+', four)] + ([('-', two)] + ProductPairs(two, four))
  {
  }

  lemma ProductText(two: Literal, four: Literal)
    requires two.Valid() && four.Valid() && two.Spelling() == "2" && four.Spelling() == "4"
    ensures ValidPairs(ProductPairs(two, four))
    ensures Tail(ProductPairs(two, four)) == "*2/2^4"
  {
    var r4 := [('^', four)];
    var r3 := [('/', two)] + r4;
    assert ProductPairs(two, four) == [('*', two)] + r3;
    TailCons('^', four, []);
    assert [('^', four)] + [] == r4;
    assert Tail(r4) == "^4";
    TailCons('/', two, r4);
    assert Tail(r3) == "/2^4";
    TailCons('*', two, r3);
  }

  lemma ChainedText(two: Literal, four: Literal)
    requires two.Valid() && four.Valid() && two.Spelling() == "2" && four.Spelling() == "4"
    ensures Text(Chained(two, four)) == "2+4-2*2/2^4"
  {
    ChainedRest(two, four);
    ProductText(two, four);
    var r1 := [('-', two)] + ProductPairs(two, four);
    TailCons('-', two, ProductPairs(two, four));
    assert Tail(r1) == "-2*2/2^4";
    TailCons('+', four, r1);
    assert Tail(Chained(two, four).rest) == "+4-2*2/2^4";
  }

  lemma ProductTokens(two: Literal, four: Literal)
    requires two.Valid() && four.Valid() && two.Value() == 2.0 && four.Value() == 4.0
    ensures ValidPairs(ProductPairs(two, four))
    ensures TailTokens(ProductPairs(two, four)) ==
      [OperatorToken(Multiply), NumberToken(2.0), OperatorToken(Divide), NumberToken(2.0),
       OperatorToken(Power), NumberToken(4.0)]
  {
    var n2, n4 := NumberToken(2.0), NumberToken(4.0);
    var over, pow := OperatorToken(Divide), OperatorToken(Power);
    var r4 := [('^', four)];
    var r3 := [('/', two)] + r4;
    assert ProductPairs(two, four) == [('*', two)] + r3;
    TailCons('^', four, []);
    assert [('^', four)] + [] == r4;
    assert TailTokens(r4) == [pow, n4];
    TailCons('/', two, r4);
    assert TailTokens(r3) == [over, n2, pow, n4];
    TailCons('*', two, r3);
  }

  lemma ChainedTokens(two: Literal, four: Literal)
    requires two.Valid() && four.Valid() && two.Value() == 2.0 && four.Value() == 4.0
    ensures WellFormed(Chained(two, four))
    ensures InfixTokens(Chained(two, four)) ==
      [NumberToken(2.0), OperatorToken(Plus), NumberToken(4.0), OperatorToken(Minus), NumberToken(2.0),
       OperatorToken(Multiply), NumberToken(2.0), OperatorToken(Divide), NumberToken(2.0),
       OperatorToken(Power), NumberToken(4.0)]
  {
    ChainedRest(two, four);
    ProductTokens(two, four);
    var n2, n4 := NumberToken(2.0), NumberToken(4.0);
    var plus, minus := OperatorToken(Plus), OperatorToken(Minus);
    var product := TailTokens(ProductPairs(two, four));
    var r1 := [('-', two)] + ProductPairs(two, four);
    TailCons('-', two, ProductPairs(two, four));
    TailCons('+', four, r1);
    assert TailTokens(Chained(two, four).rest) == [plus, n4] + ([minus, n2] + product);
    assert [n2] + ([plus, n4] + ([minus, n2] + product)) == [n2, plus, n4, minus, n2] + product;
  }

  lemma ConvertedSnoc(p: seq<Token>, t: Token)
    ensures Converted(p + [t]) == Push(Converted(p), t)
  {
    assert (p + [t])[..|p|] == p;
  }

  /** Operators with the precedence pattern of `a + b - c * d / e ^ g`:
      the first two are left to right, `*` and `/` bind tighter than `-`, and
      `^` tighter than `/`. */
  predicate ChainedPattern(plus: Token, minus: Token, times: Token, over: Token, pow: Token) {
    && plus.IsOperator() && minus.IsOperator() && times.IsOperator() && over.IsOperator() && pow.IsOperator()
    && PopsBefore(plus, minus) && !PopsBefore(minus, times) && PopsBefore(times, over)
    && !PopsBefore(minus, over) && !PopsBefore(over, pow)
  }

  /** The stack after `a + b - c * d`. */
  lemma ChainedStackFirst(a: Token, plus: Token, b: Token, minus: Token, c: Token, times: Token, d: Token)
    requires a.kind == Number && b.kind == Number && c.kind == Number && d.kind == Number
    requires plus.IsOperator() && minus.IsOperator() && times.IsOperator()
    requires PopsBefore(plus, minus) && !PopsBefore(minus, times)
    ensures Converted([a, plus, b, minus, c, times, d]) == Conversion([a, b, plus, c, d], [minus, times])
  {
    var t1 := [a, plus, b];
    ConvertedBinary(a, plus, b);
    var t2 := t1 + [minus];
    ConvertedSnoc(t1, minus);
    assert PopWhile(Conversion([a, b], [plus]), minus) == Conversion([a, b, plus], []);
    assert Converted(t2) == Conversion([a, b, plus], [minus]);
    var t3 := t2 + [c];
    ConvertedSnoc(t2, c);
    var t4 := t3 + [times];
    ConvertedSnoc(t3, times);
    assert Converted(t4) == Conversion([a, b, plus, c], [minus, times]);
    var t5 := t4 + [d];
    ConvertedSnoc(t4, d);
    assert t5 == [a, plus, b, minus, c, times, d];
  }

  /** The rest of `... / e ^ g`, from the stack `minus times`. */
  lemma ChainedStackLast(p: seq<Token>, out: seq<Token>, minus: Token, times: Token,
                         over: Token, e: Token, pow: Token, g: Token)
    requires Converted(p) == Conversion(out, [minus, times])
    requires e.kind == Number && g.kind == Number
    requires over.IsOperator() && pow.IsOperator()
    requires PopsBefore(times, over) && !PopsBefore(minus, over) && !PopsBefore(over, pow)
    ensures Converted(p + [over, e, pow, g]) == Conversion(out + [times, e, g], [minus, over, pow])
  {
    var c5 := Conversion(out, [minus, times]);
    var t6 := p + [over];
    ConvertedSnoc(p, over);
    assert [minus, times][..1] == [minus];
    assert PopWhile(c5, over) == PopWhile(Conversion(out + [times], [minus]), over);
    assert Converted(t6) == Conversion(out + [times], [minus, over]);
    var t7 := t6 + [e];
    ConvertedSnoc(t6, e);
    var t8 := t7 + [pow];
    ConvertedSnoc(t7, pow);
    assert Converted(t8) == Conversion(out + [times] + [e], [minus, over, pow]);
    var t9 := t8 + [g];
    ConvertedSnoc(t8, g);
    assert t9 == p + [over, e, pow, g];
    assert out + [times] + [e] + [g] == out + [times, e, g];
  }

  lemma ChainedStack(a: Token, plus: Token, b: Token, minus: Token, c: Token, times: Token, d: Token,
                     over: Token, e: Token, pow: Token, g: Token)
    requires a.kind == Number && b.kind == Number && c.kind == Number && d.kind == Number
    requires e.kind == Number && g.kind == Number
    requires ChainedPattern(plus, minus, times, over, pow)
    ensures Converted([a, plus, b, minus, c, times, d, over, e, pow, g])
      == Conversion([a, b, plus, c, d, times, e, g], [minus, over, pow])
  {
    var p := [a, plus, b, minus, c, times, d];
    ChainedStackFirst(a, plus, b, minus, c, times, d);
    ChainedStackLast(p, [a, b, plus, c, d], minus, times, over, e, pow, g);
    assert p + [over, e, pow, g] == [a, plus, b, minus, c, times, d, over, e, pow, g];
    assert [a, b, plus, c, d] + [times, e, g] == [a, b, plus, c, d, times, e, g];
  }

  lemma ChainedDrain(out: seq<Token>, minus: Token, over: Token, pow: Token)
    ensures Drain(Conversion(out, [minus, over, pow])) == out + [pow, over, minus]
  {
    assert [minus, over, pow][..2] == [minus, over] && [minus, over][..1] == [minus] && [minus][..0] == [];
    assert Drain(Conversion(out, [minus, over, pow])) == Drain(Conversion(out + [pow], [minus, over]));
    assert Drain(Conversion(out + [pow], [minus, over])) == Drain(Conversion(out + [pow] + [over], [minus]));
    assert Drain(Conversion(out + [pow] + [over], [minus])) == out + [pow] + [over] + [minus];
    assert out + [pow] + [over] + [minus] == out + [pow, over, minus];
  }

  /** The tree that `2+4-2*2/2^4` denotes by precedence and associativity. */
  function ChainedTree(): (e: Term)
    ensures ValidTerm(e)
  {
    var two, four := Leaf(2.0), Leaf(4.0);
    var sum := Node(Plus, two, four);
    var product := Node(Multiply, two, two);
    var power := Node(Power, two, four);
    assert ValidTerm(sum) && ValidTerm(product) && ValidTerm(power);
    var quotient := Node(Divide, product, power);
    assert ValidTerm(quotient);
    Node(Minus, sum, quotient)
  }

  /** The shunting yard turns the tokens of `2+4-2*2/2^4` into the postorder
      of the tree that precedence and associativity give. */
  lemma ChainedConversion()
    ensures ReversePolish(
      [NumberToken(2.0), OperatorToken(Plus), NumberToken(4.0), OperatorToken(Minus), NumberToken(2.0),
       OperatorToken(Multiply), NumberToken(2.0), OperatorToken(Divide), NumberToken(2.0),
       OperatorToken(Power), NumberToken(4.0)]) == Postorder(ChainedTree())
  {
    var n2, n4 := NumberToken(2.0), NumberToken(4.0);
    var plus, minus, times, over, pow := OperatorToken(Plus), OperatorToken(Minus), OperatorToken(Multiply),
      OperatorToken(Divide), OperatorToken(Power);
    assert ChainedPattern(plus, minus, times, over, pow);
    ChainedStack(n2, plus, n4, minus, n2, times, n2, over, n2, pow, n4);
    var out := [n2, n4, plus, n2, n2, times, n2, n4];
    ChainedDrain(out, minus, over, pow);
    var e := ChainedTree();
    assert Postorder(e.left) == [n2, n4, plus];
    assert Postorder(e.right.left) == [n2, n2, times];
    assert Postorder(e.right.right) == [n2, n4, pow];
    assert Postorder(e.right) == [n2, n2, times] + [n2, n4, pow] + [over];
    assert Postorder(e) == [n2, n4, plus] + ([n2, n2, times] + [n2, n4, pow] + [over]) + [minus];
  }

  /** `2+4-2*2/2^4` is `(2+4) - (2*2)/(2^4)`: `*`, `/` and `^` bind tighter
      than `+` and `-`, and `^` tighter than `/`. */
  lemma ChainedEvaluation(f: FloatOps)
    ensures Evaluation("2+4-2*2/2^4", f) == Ok(2.0 + 4.0 - f.divide(2.0 * 2.0, f.power(2.0, 4.0)))
  {
    ChainedLexed();
    ChainedConversion();
    CalculatePostorder(ChainedTree(), f);
    var v := Eval(ChainedTree(), f);
    assert Evaluation("2+4-2*2/2^4", f) == Ok(v);
    ChainedValue(f);
    assert v == 6.0 - f.divide(4.0, f.power(2.0, 4.0));
  }

  /** The unit test's value 5.75, when `powf` gives 16 and division is exact. */
  lemma ChainedExpressionTest(f: FloatOps)
    requires ExactQuotients(f) && f.power(2.0, 4.0) == 16.0
    ensures Evaluation("2+4-2*2/2^4", f) == Ok(5.75)
  {
    ChainedEvaluation(f);
    assert f.divide(4.0, 16.0) == 0.25;
  }

  lemma ChainedValue(f: FloatOps)
    ensures Eval(ChainedTree(), f) == 6.0 - f.divide(4.0, f.power(2.0, 4.0))
  {
    var e := ChainedTree();
    assert Eval(e.left, f) == 6.0;
    assert Eval(e.right.left, f) == 4.0;
    assert Eval(e.right, f) == f.divide(4.0, f.power(2.0, 4.0));
  }

  lemma ChainedLexed()
    ensures Lexed("2+4-2*2/2^4") == Ok(
      [NumberToken(2.0), OperatorToken(Plus), NumberToken(4.0), OperatorToken(Minus), NumberToken(2.0),
       OperatorToken(Multiply), NumberToken(2.0), OperatorToken(Divide), NumberToken(2.0),
       OperatorToken(Power), NumberToken(4.0)])
  {
    IntLiteralRoundTrip(2);
    IntLiteralRoundTrip(4);
    Digit(2);
    Digit(4);
    var two, four := IntLiteral(2), IntLiteral(4);
    ChainedText(two, four);
    ChainedTokens(two, four);
    WellFormedTokens(Chained(two, four));
  }
}
