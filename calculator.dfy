/** `evaluate` of the `calculator` module: tokenize, convert to reverse
    Polish order, calculate; the first error is returned. */
module Calculator {
  import opened Errors
  import opened Lexer
  import opened Shunting
  import opened Rpn

  /** What `evaluate` returns for `expression`. */
  function Evaluation(expression: string, f: FloatOps): Result<real> {
    match Lexed(expression)
    case Err(e) => Err(e)
    case Ok(v) => Calculation(ReversePolish(v), f)
  }

  method Evaluate(expression: string, f: FloatOps) returns (r: Result<real>)
    ensures r == Evaluation(expression, f)
  {
    var lexed := Tokenize(expression);
    match lexed {
      case Err(e) =>
        r := Err(e);
      case Ok(v) =>
        var converted := ShuntingYard(v);
        match converted {
          case Err(x) =>
            r := Err(x);
          case Ok(s) =>
            r := Calculate(s, f);
        }
    }
  }

  /** Well-formed input — number literals separated by single operator
      characters — always evaluates to a value. */
  lemma WellFormedEvaluates(e: Infix, f: FloatOps)
    requires WellFormed(e)
    ensures Evaluation(Text(e), f).Ok?
  {
    WellFormedTokens(e);
    InfixTokensAlternate(e);
    AlternatingGivesValidRpn(InfixTokens(e));
    ValidRpnEvaluates(ReversePolish(InfixTokens(e)), f);
  }

  /** The scan stops only on an alphabetic character or a panic. */
  lemma {:induction false} RunStops(sc: Scanner, s: string)
    ensures Run(sc, s).Stopped? ==> Run(sc, s).error.InvalidCharacter? || Run(sc, s).error.Panicked?
    decreases |s|
  {
    if s != [] {
      match Step(sc, s[0])
      case Stopped(_) =>
      case Running(next) => RunStops(next, s[1..]);
    }
  }

  /** The errors `evaluate` can return. `Token::new`'s own error message never
      reaches the caller: the lexer unwraps it into a panic. */
  lemma EvaluationErrors(expression: string, f: FloatOps)
    ensures Evaluation(expression, f).Err? ==> !Evaluation(expression, f).error.InvalidTokenContent?
  {
    RunStops(Start, expression);
  }
}
