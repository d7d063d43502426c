/** Tokens and `Token::new` of the `lexer` module: a lexeme is classified as
    one of the five operators or as a signed decimal literal. */
module Tokens {
  import opened Errors

  datatype TokenType = Plus | Minus | Multiply | Divide | Power | Number

  datatype Associativity = Left | Right

  /** The four fields double as the getters `get_type`, `get_value`,
      `get_precedence` and `get_associativity`. */
  datatype Token = Token(kind: TokenType, value: real, precedence: nat, associativity: Associativity)
  {
    /** `is_operator`: one of the five operator kinds. */
    function IsOperator(): (b: bool)
      ensures b <==> kind != Number
    {
      kind == Divide || kind == Multiply || kind == Plus || kind == Minus || kind == Power
    }
  }

  // ----- character classes (ASCII versions of Rust's Unicode predicates) -----

  predicate IsDigit(c: char) { '0' <= c <= '9' }

  predicate IsAlphabetic(c: char) { 'a' <= c <= 'z' || 'A' <= c <= 'Z' }

  /** The five characters the lexer treats as operators. */
  predicate IsOperatorChar(c: char) { c == '^' || c == '*' || c == '/' || c == '-' || c == '+' }

  predicate AllDigits(s: string) { forall i :: 0 <= i < |s| ==> IsDigit(s[i]) }

  // ----- the fixed properties of each kind -----

  /** Precedence of each kind; numbers have 0. */
  function PrecedenceOf(k: TokenType): nat {
    match k
    case Plus => 2
    case Minus => 2
    case Multiply => 3
    case Divide => 3
    case Power => 4
    case Number => 0
  }

  /** Only `^` is right-associative among the operators; numbers carry `Right`. */
  function AssociativityOf(k: TokenType): Associativity {
    if k == Power || k == Number then Right else Left
  }

  /** The operator kind denoted by an operator character. */
  function OperatorKind(c: char): (k: TokenType)
    requires IsOperatorChar(c)
    ensures k != Number
  {
    match c
    case '+' => Plus
    case '-' => Minus
    case '*' => Multiply
    case '/' => Divide
    case '^' => Power
  }

  /** A token whose precedence and associativity are those its kind
      determines, and whose value is 0 unless it is a number. */
  predicate Consistent(t: Token) {
    && t.precedence == PrecedenceOf(t.kind)
    && t.associativity == AssociativityOf(t.kind)
    && (t.kind != Number ==> t.value == 0.0)
  }

  function OperatorToken(k: TokenType): (t: Token)
    requires k != Number
    ensures Consistent(t) && t.IsOperator()
  {
    Token(k, 0.0, PrecedenceOf(k), AssociativityOf(k))
  }

  function NumberToken(v: real): (t: Token)
    ensures Consistent(t) && t.kind == Number && t.value == v
  {
    Token(Number, v, 0, Right)
  }

  // ----- decimal literals: the pattern ^-?\d+\.?\d*$ written out -----

  /** Length of the run of digits at the start of `s`. */
  function LeadingDigits(s: string): (n: nat)
    ensures n <= |s| && AllDigits(s[..n])
    ensures n < |s| ==> !IsDigit(s[n])
  {
    if s == [] || !IsDigit(s[0]) then 0
    else
      var m := LeadingDigits(s[1..]);
      assert s[..m + 1] == [s[0]] + s[1..][..m];
      m + 1
  }

  /** `s` without a leading minus sign. */
  function Unsigned(s: string): string {
    if |s| > 0 && s[0] == '-' then s[1..] else s
  }

  /** An optional `-`, one or more digits, an optional `.`, then zero or more digits. */
  predicate IsNumberLiteral(s: string) {
    var u := Unsigned(s);
    var n := LeadingDigits(u);
    n >= 1 && (n == |u| || (u[n] == '.' && AllDigits(u[n + 1..])))
  }

  /** A decimal literal taken apart: sign, integer digits, point, fraction digits. */
  datatype Literal = Literal(negative: bool, whole: string, dot: bool, fraction: string)
  {
    predicate Valid() {
      |whole| >= 1 && AllDigits(whole) && AllDigits(fraction) && (!dot ==> fraction == [])
    }

    function Spelling(): string {
      (if negative then "-" else "") + whole + (if dot then "." else "") + fraction
    }

    /** The exact decimal value the literal denotes. */
    function Value(): real
      requires Valid()
    {
      var magnitude := DigitsValue(whole) as real + DigitsValue(fraction) as real / Pow10(|fraction|) as real;
      if negative then -magnitude else magnitude
    }
  }

  function DigitValue(c: char): (d: nat)
    requires IsDigit(c)
    ensures d < 10
  {
    c as int - '0' as int
  }

  /** The natural number a string of decimal digits denotes. */
  function DigitsValue(s: string): nat
    requires AllDigits(s)
  {
    if s == [] then 0 else 10 * DigitsValue(s[..|s| - 1]) + DigitValue(s[|s| - 1])
  }

  function Pow10(n: nat): (p: nat)
    ensures p >= 1
  {
    if n == 0 then 1 else 10 * Pow10(n - 1)
  }

  /** Takes a number lexeme apart into sign, integer digits, point and fraction. */
  function SplitLiteral(s: string): (l: Literal)
    requires IsNumberLiteral(s)
    ensures l.Valid()
  {
    var u := Unsigned(s);
    var n := LeadingDigits(u);
    Literal(|s| > 0 && s[0] == '-', u[..n], n < |u|, if n < |u| then u[n + 1..] else "")
  }

  /** Spelling the parts of a number lexeme again gives the lexeme back. */
  lemma SplitLiteralSpelling(s: string)
    requires IsNumberLiteral(s)
    ensures SplitLiteral(s).Spelling() == s
  {
    var l := SplitLiteral(s);
    var u := Unsigned(s);
    var n := LeadingDigits(u);
    var sign := if l.negative then "-" else "";
    var point := if l.dot then "." else "";
    assert s == sign + u;
    if n < |u| {
      assert u == u[..n] + [u[n]] + u[n + 1..];
      assert u == l.whole + point + l.fraction;
    } else {
      assert u == l.whole + point + l.fraction;
    }
  }

  /** `Token::new`: the five operator lexemes first, then the decimal pattern. */
  function NewToken(content: string): (r: Result<Token>)
    ensures r.Ok? ==> Consistent(r.value)
    ensures r.Err? ==> r.error == InvalidTokenContent(content)
  {
    if content == "+" then Ok(OperatorToken(Plus))
    else if content == "-" then Ok(OperatorToken(Minus))
    else if content == "*" then Ok(OperatorToken(Multiply))
    else if content == "/" then Ok(OperatorToken(Divide))
    else if content == "^" then Ok(OperatorToken(Power))
    else if IsNumberLiteral(content) then Ok(NumberToken(SplitLiteral(content).Value()))
    else Err(InvalidTokenContent(content))
  }

  /** Numbers and operators alternate, beginning and ending with a number:
      the token sequences the code is meant to handle. */
  predicate Alternating(ts: seq<Token>) {
    |ts| % 2 == 1 && forall i :: 0 <= i < |ts| ==> (ts[i].kind == Number <==> i % 2 == 0)
  }

  // ----- properties of Token::new -----

  /** The operator table: kind, precedence 2/3/4, associativity, value 0. */
  lemma OperatorTable()
    ensures NewToken("+") == Ok(Token(Plus, 0.0, 2, Left))
    ensures NewToken("-") == Ok(Token(Minus, 0.0, 2, Left))
    ensures NewToken("*") == Ok(Token(Multiply, 0.0, 3, Left))
    ensures NewToken("/") == Ok(Token(Divide, 0.0, 3, Left))
    ensures NewToken("^") == Ok(Token(Power, 0.0, 4, Right))
  {
  }

  /** A one-character operator lexeme gives the operator token of its kind. */
  lemma OperatorLexeme(c: char)
    requires IsOperatorChar(c)
    ensures NewToken([c]) == Ok(OperatorToken(OperatorKind(c)))
  {
  }

  /** `Token::new` yields a number exactly for the decimal pattern, and any
      lexeme that is neither an operator nor a literal is an error. */
  lemma NumberLexemeIff(content: string)
    ensures (NewToken(content).Ok? && NewToken(content).value.kind == Number) <==> IsNumberLiteral(content)
    ensures NewToken(content).Err? <==> !IsNumberLiteral(content) && content !in {"+", "-", "*", "/", "^"}
  {
    if IsNumberLiteral(content) {
      var u := Unsigned(content);
      assert LeadingDigits(u) >= 1 && IsDigit(u[0]);
      assert content != "+" && content != "-" && content != "*" && content != "/" && content != "^";
    }
  }

  /** Spelling a valid literal and taking it apart again gives the same parts. */
  lemma SplitSpelling(l: Literal)
    requires l.Valid()
    ensures IsNumberLiteral(l.Spelling()) && SplitLiteral(l.Spelling()) == l
  {
    var s := l.Spelling();
    var tail := (if l.dot then "." else "") + l.fraction;
    var u := l.whole + tail;
    assert s == (if l.negative then "-" else "") + u;
    assert Unsigned(s) == u;
    WholeDigitsLead(l.whole, tail);
    if l.dot {
      assert u[|l.whole| + 1..] == l.fraction;
    } else {
      assert u[..|l.whole|] == u;
    }
  }

  /** The run of leading digits of `w + t` is `w` when `t` does not start with a digit. */
  lemma {:induction false} WholeDigitsLead(w: string, t: string)
    requires AllDigits(w)
    requires t == [] || !IsDigit(t[0])
    ensures LeadingDigits(w + t) == |w| && (w + t)[..|w|] == w
  {
    if w != [] {
      assert (w + t)[1..] == w[1..] + t;
      WholeDigitsLead(w[1..], t);
    }
  }

  /** A valid literal's spelling is read back as a number token with its exact value. */
  lemma LiteralToken(l: Literal)
    requires l.Valid()
    ensures NewToken(l.Spelling()) == Ok(NumberToken(l.Value()))
  {
    SplitSpelling(l);
    NumberLexemeIff(l.Spelling());
  }

  // ----- printing integers, to state a round trip -----

  function DigitChar(d: nat): (c: char)
    requires d < 10
    ensures IsDigit(c) && DigitValue(c) == d
  {
    ('0' as int + d) as char
  }

  /** The decimal digits of `n`, most significant first. */
  function NatDigits(n: nat): (s: string)
    ensures |s| >= 1 && AllDigits(s)
  {
    if n < 10 then [DigitChar(n)] else NatDigits(n / 10) + [DigitChar(n % 10)]
  }

  lemma {:induction false} NatDigitsValue(n: nat)
    ensures DigitsValue(NatDigits(n)) == n
  {
    if n >= 10 {
      var s := NatDigits(n);
      assert s[..|s| - 1] == NatDigits(n / 10);
      NatDigitsValue(n / 10);
    }
  }

  /** An integer as the lexer's input would spell it, with a leading `-` when negative. */
  function IntLiteral(i: int): Literal {
    Literal(i < 0, NatDigits(if i < 0 then -i else i), false, "")
  }

  /** Round trip: the spelling of any integer is read back as that integer. */
  lemma IntLiteralRoundTrip(i: int)
    ensures IntLiteral(i).Valid() && IntLiteral(i).Value() == i as real
    ensures NewToken(IntLiteral(i).Spelling()) == Ok(NumberToken(i as real))
  {
    var l := IntLiteral(i);
    NatDigitsValue(if i < 0 then -i else i);
    LiteralToken(l);
  }
}
