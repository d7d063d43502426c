/** `tokenize` of the `lexer` module: a three-state scanner over the input's
    characters that accumulates the current lexeme in a buffer. */
module Lexer {
  import opened Errors
  import opened Tokens

  /** `ParserState`: NONE, OPERATOR and NUMBER. */
  datatype ParserState = Idle | InOperator | InNumber

  /** The scanner's variables between two characters: `v`, `buffer`, `state`. */
  datatype Scanner = Scanner(tokens: seq<Token>, buffer: string, state: ParserState)

  /** Either the scan goes on, or it has returned an error (or panicked). */
  datatype Scan = Running(scanner: Scanner) | Stopped(error: Error)

  const Start := Scanner([], "", Idle)

  /** Ends the buffered lexeme with `Token::new(&buffer).unwrap()` and starts
      a new one holding just `c`. */
  function Flush(sc: Scanner, c: char, next: ParserState): Scan {
    match NewToken(sc.buffer)
    case Ok(t) => Running(Scanner(sc.tokens + [t], [c], next))
    case Err(_) => Stopped(Panicked(sc.buffer))
  }

  /** One iteration of the `for c in content.chars()` loop. */
  function Step(sc: Scanner, c: char): Scan {
    if IsAlphabetic(c) then Stopped(InvalidCharacter(c))
    else match sc.state
      case InNumber =>
        if IsDigit(c) || c == '.' then Running(sc.(buffer := sc.buffer + [c]))
        else if IsOperatorChar(c) then Flush(sc, c, InOperator)
        else Running(sc)
      case InOperator =>
        if c == '-' || IsDigit(c) then Flush(sc, c, InNumber)
        else Running(sc)
      case Idle =>
        if IsDigit(c) || c == '-' then Running(sc.(buffer := sc.buffer + [c], state := InNumber))
        else Running(sc)
  }

  /** The loop over all of `s`, from scanner `sc`. */
  function Run(sc: Scanner, s: string): Scan
    decreases |s|
  {
    if s == [] then Running(sc)
    else match Step(sc, s[0])
      case Stopped(e) => Stopped(e)
      case Running(next) => Run(next, s[1..])
  }

  /** The code after the loop: only a non-empty number lexeme may end the input. */
  function Finish(sc: Scanner): Result<seq<Token>> {
    if sc.buffer != [] && sc.state == InNumber then
      match NewToken(sc.buffer)
      case Ok(t) => Ok(sc.tokens + [t])
      case Err(_) => Err(Panicked(sc.buffer))
    else Err(InvalidEndOfExpression)
  }

  /** What `tokenize` returns for `content`. */
  function Lexed(content: string): Result<seq<Token>> {
    match Run(Start, content)
    case Stopped(e) => Err(e)
    case Running(sc) => Finish(sc)
  }

  method Tokenize(content: string) returns (r: Result<seq<Token>>)
    ensures r == Lexed(content)
  {
    var v: seq<Token> := [];
    var state := Idle;
    var buffer: string := "";
    var i := 0;
    while i < |content|
      invariant 0 <= i <= |content|
      invariant Run(Start, content) == Run(Scanner(v, buffer, state), content[i..])
    {
      var c := content[i];
      assert content[i..][1..] == content[i + 1..];
      if IsAlphabetic(c) {
        return Err(InvalidCharacter(c));
      } else if state == InNumber {
        if IsDigit(c) || c == '.' {
          buffer := buffer + [c];
        } else if c == '^' || c == '*' || c == '/' || c == '-' || c == '+' {
          match NewToken(buffer) {
            case Err(_) => return Err(Panicked(buffer));
            case Ok(t) => v := v + [t];
          }
          buffer := [c];
          state := InOperator;
        }
      } else if state == InOperator {
        if c == '-' || IsDigit(c) {
          match NewToken(buffer) {
            case Err(_) => return Err(Panicked(buffer));
            case Ok(t) => v := v + [t];
          }
          buffer := [c];
          state := InNumber;
        }
      } else if state == Idle {
        if IsDigit(c) || c == '-' {
          buffer := buffer + [c];
          state := InNumber;
        }
      }
      i := i + 1;
    }
    if buffer != [] && state == InNumber {
      match NewToken(buffer) {
        case Err(_) => return Err(Panicked(buffer));
        case Ok(t) => return Ok(v + [t]);
      }
    } else {
      return Err(InvalidEndOfExpression);
    }
  }

  // ----- composing runs -----

  /** Scanning `a + b` is scanning `a`, then `b` from where `a` left off. */
  lemma {:induction false} RunAppend(sc: Scanner, a: string, b: string)
    ensures Run(sc, a + b) == match Run(sc, a)
      case Stopped(e) => Stopped(e)
      case Running(next) => Run(next, b)
    decreases |a|
  {
    if a == [] {
      assert a + b == b;
    } else {
      assert (a + b)[0] == a[0] && (a + b)[1..] == a[1..] + b;
      match Step(sc, a[0])
      case Stopped(e) =>
      case Running(next) => RunAppend(next, a[1..], b);
    }
  }

  // ----- errors -----

  /** Reaching an alphabetic character makes `tokenize` fail with that
      character, unless it already stopped on an earlier character. */
  lemma AlphabeticStops(s: string, k: nat)
    requires k < |s| && IsAlphabetic(s[k])
    ensures Lexed(s).Err?
    ensures Run(Start, s[..k]).Running? ==> Lexed(s) == Err(InvalidCharacter(s[k]))
  {
    assert s == s[..k] + s[k..];
    RunAppend(Start, s[..k], s[k..]);
  }

  /** Empty input ends outside a number lexeme. */
  lemma EmptyInput()
    ensures Lexed("") == Err(InvalidEndOfExpression)
  {
  }

  /** A trailing `+`, `*`, `/` or `^` leaves the scanner outside a number
      lexeme, so the end of input is an error (or the number before it panics). */
  lemma TrailingOperator(s: string, c: char, sc: Scanner)
    requires IsOperatorChar(c) && c != '-'
    requires Run(Start, s) == Running(sc)
    ensures Lexed(s + [c]) ==
      if sc.state == InNumber && NewToken(sc.buffer).Err? then Err(Panicked(sc.buffer))
      else Err(InvalidEndOfExpression)
  {
    RunAppend(Start, s, [c]);
  }

  /** A trailing `-` after a number is an operator and ends the input
      wrongly; after an operator, or alone, it becomes a one-character number
      lexeme, which `Token::new` reads as the MINUS operator. */
  lemma TrailingMinus(s: string, sc: Scanner)
    requires Run(Start, s) == Running(sc)
    ensures Reachable(sc)
    ensures sc.state == InNumber ==>
      Lexed(s + "-") == if NewToken(sc.buffer).Err? then Err(Panicked(sc.buffer)) else Err(InvalidEndOfExpression)
    ensures sc.state == Idle ==> Lexed(s + "-") == Ok([OperatorToken(Minus)])
    ensures sc.state == InOperator ==>
      Lexed(s + "-") == Ok(sc.tokens + [OperatorToken(OperatorKind(sc.buffer[0])), OperatorToken(Minus)])
  {
    RunAppend(Start, s, "-");
    RunReachable(Start, s);
    assert Run(Start, s + "-") == Run(sc, "-");
    if sc.state == InOperator {
      OperatorLexeme(sc.buffer[0]);
      assert sc.buffer == [sc.buffer[0]];
      var sc' := Scanner(sc.tokens + [OperatorToken(OperatorKind(sc.buffer[0]))], "-", InNumber);
      assert Run(sc, "-") == Running(sc');
      assert NewToken("-") == Ok(OperatorToken(Minus));
      assert Finish(sc') == Ok(sc'.tokens + [OperatorToken(Minus)]);
      assert Lexed(s + "-") == Finish(sc');
      assert sc'.tokens + [OperatorToken(Minus)] == sc.tokens + [OperatorToken(OperatorKind(sc.buffer[0])), OperatorToken(Minus)];
    } else if sc.state == Idle {
      assert Run(sc, "-") == Running(Scanner([], "-", InNumber));
      assert NewToken("-") == Ok(OperatorToken(Minus));
      assert Finish(Scanner([], "-", InNumber)) == Ok([] + [OperatorToken(Minus)]);
      assert Lexed(s + "-") == Finish(Scanner([], "-", InNumber));
      assert [] + [OperatorToken(Minus)] == [OperatorToken(Minus)];
    }
  }

  // ----- characters the scanner drops -----

  /** Characters that no transition of any state uses: parentheses, spaces, ... */
  predicate Inert(c: char) {
    !IsAlphabetic(c) && !IsDigit(c) && c != '.' && !IsOperatorChar(c)
  }

  /** Characters that leave the scanner unchanged in a given state. */
  predicate Ignored(state: ParserState, c: char) {
    Inert(c) || (state != InNumber && (c == '.' || (IsOperatorChar(c) && c != '-')))
  }

  function DropInert(s: string): (t: string)
    ensures forall i :: 0 <= i < |t| ==> !Inert(t[i])
  {
    if s == [] then [] else (if Inert(s[0]) then [] else [s[0]]) + DropInert(s[1..])
  }

  lemma {:induction false} RunDropInert(sc: Scanner, s: string)
    ensures Run(sc, s) == Run(sc, DropInert(s))
    decreases |s|
  {
    if s != [] {
      if Inert(s[0]) {
        assert DropInert(s) == DropInert(s[1..]);
        RunDropInert(sc, s[1..]);
      } else {
        var d := DropInert(s);
        assert d[0] == s[0] && d[1..] == DropInert(s[1..]);
        match Step(sc, s[0])
        case Stopped(_) =>
        case Running(next) => RunDropInert(next, s[1..]);
      }
    }
  }

  /** Parentheses, spaces and every other inert character make no difference:
      the code has no parenthesis tokens. */
  lemma InertCharactersDropped(s: string)
    ensures Lexed(s) == Lexed(DropInert(s))
  {
    RunDropInert(Start, s);
  }

  lemma {:induction false} DropInertAppend(a: string, b: string)
    ensures DropInert(a + b) == DropInert(a) + DropInert(b)
    decreases |a|
  {
    if a == [] {
      assert a + b == b;
    } else {
      assert (a + b)[0] == a[0] && (a + b)[1..] == a[1..] + b;
      DropInertAppend(a[1..], b);
    }
  }

  lemma {:induction false} DropInertClean(s: string)
    requires forall i :: 0 <= i < |s| ==> !Inert(s[i])
    ensures DropInert(s) == s
    decreases |s|
  {
    if s != [] {
      DropInertClean(s[1..]);
    }
  }

  /** A character that matches no transition of the current state is
      skipped: removing it does not change what `tokenize` returns. */
  lemma IgnoredCharacterSkipped(s: string, k: nat, sc: Scanner)
    requires k < |s| && Run(Start, s[..k]) == Running(sc) && Ignored(sc.state, s[k])
    ensures Lexed(s) == Lexed(s[..k] + s[k + 1..])
  {
    assert s == s[..k] + ([s[k]] + s[k + 1..]);
    RunAppend(Start, s[..k], [s[k]] + s[k + 1..]);
    RunAppend(Start, s[..k], s[k + 1..]);
    assert ([s[k]] + s[k + 1..])[1..] == s[k + 1..];
  }

  // ----- the states the scanner can reach -----

  /** A number lexeme in progress: a `-` or digit, then digits and points. */
  predicate NumberPrefix(b: string) {
    b != [] && (b[0] == '-' || IsDigit(b[0])) && forall i :: 1 <= i < |b| ==> IsDigit(b[i]) || b[i] == '.'
  }

  /** A token in a number position: a number, or the MINUS token a lone `-` lexeme gives. */
  predicate NumberSlot(t: Token) {
    t.kind == Number || t == OperatorToken(Minus)
  }

  /** Number-position and operator tokens alternate, starting with a number position. */
  predicate Interleaved(ts: seq<Token>) {
    forall i :: 0 <= i < |ts| ==> if i % 2 == 0 then NumberSlot(ts[i]) else ts[i].IsOperator()
  }

  predicate Reachable(sc: Scanner) {
    && Interleaved(sc.tokens)
    && match sc.state
       case Idle => sc.tokens == [] && sc.buffer == []
       case InOperator => |sc.buffer| == 1 && IsOperatorChar(sc.buffer[0]) && |sc.tokens| % 2 == 1
       case InNumber => NumberPrefix(sc.buffer) && |sc.tokens| % 2 == 0
  }

  /** `Token::new` on a number lexeme in progress gives a number, MINUS, or an error. */
  lemma NumberPrefixToken(b: string)
    requires NumberPrefix(b)
    ensures NewToken(b).Ok? ==> NumberSlot(NewToken(b).value)
  {
    assert b != "+" && b != "*" && b != "/" && b != "^" by { assert b[0] == '-' || IsDigit(b[0]); }
  }

  lemma StepReachable(sc: Scanner, c: char)
    requires Reachable(sc)
    ensures Step(sc, c).Running? ==> Reachable(Step(sc, c).scanner)
    ensures sc.state == InOperator ==> Step(sc, c).Running? || IsAlphabetic(c)
  {
    match sc.state
    case InNumber => StepInNumber(sc, c);
    case InOperator => StepInOperator(sc, c);
    case Idle =>
  }

  lemma StepInNumber(sc: Scanner, c: char)
    requires Reachable(sc) && sc.state == InNumber
    ensures Step(sc, c).Running? ==> Reachable(Step(sc, c).scanner)
  {
    if !IsAlphabetic(c) && !IsDigit(c) && c != '.' && IsOperatorChar(c) {
      NumberPrefixToken(sc.buffer);
      match NewToken(sc.buffer)
      case Ok(t) =>
        var next := Scanner(sc.tokens + [t], [c], InOperator);
        assert Step(sc, c) == Running(next);
        assert forall i :: 0 <= i < |sc.tokens| ==> next.tokens[i] == sc.tokens[i];
      case Err(_) =>
    }
  }

  lemma StepInOperator(sc: Scanner, c: char)
    requires Reachable(sc) && sc.state == InOperator
    ensures Step(sc, c).Running? ==> Reachable(Step(sc, c).scanner)
    ensures Step(sc, c).Running? || IsAlphabetic(c)
  {
    OperatorLexeme(sc.buffer[0]);
    assert sc.buffer == [sc.buffer[0]];
    if !IsAlphabetic(c) && (c == '-' || IsDigit(c)) {
      var next := Scanner(sc.tokens + [OperatorToken(OperatorKind(sc.buffer[0]))], [c], InNumber);
      assert Step(sc, c) == Running(next);
      assert forall i :: 0 <= i < |sc.tokens| ==> next.tokens[i] == sc.tokens[i];
    }
  }

  lemma {:induction false} RunReachable(sc: Scanner, s: string)
    requires Reachable(sc)
    ensures Run(sc, s).Running? ==> Reachable(Run(sc, s).scanner)
    decreases |s|
  {
    if s != [] {
      StepReachable(sc, s[0]);
      match Step(sc, s[0])
      case Stopped(_) =>
      case Running(next) => RunReachable(next, s[1..]);
    }
  }

  /** Whatever the input, a successful `tokenize` returns an odd number of
      tokens in which number positions (a number, or MINUS from a lone `-`)
      and operators alternate. Only a number lexeme can panic: flushing an
      operator lexeme (the `unwrap` of line 51) never does. */
  lemma LexedShape(s: string)
    ensures Lexed(s).Ok? ==> |Lexed(s).value| % 2 == 1 && Interleaved(Lexed(s).value)
    ensures Lexed(s).Err? && Lexed(s).error.Panicked? ==>
      NumberPrefix(Lexed(s).error.lexeme) && NewToken(Lexed(s).error.lexeme).Err?
  {
    RunReachable(Start, s);
    RunPanics(Start, s);
    match Run(Start, s)
    case Stopped(_) =>
    case Running(sc) => FinishShape(sc);
  }

  /** The end-of-input check on a reachable scanner adds one number position. */
  lemma FinishShape(sc: Scanner)
    requires Reachable(sc)
    ensures Finish(sc).Ok? ==> |Finish(sc).value| % 2 == 1 && Interleaved(Finish(sc).value)
    ensures Finish(sc).Err? && Finish(sc).error.Panicked? ==>
      NumberPrefix(Finish(sc).error.lexeme) && NewToken(Finish(sc).error.lexeme).Err?
  {
    if sc.buffer != [] && sc.state == InNumber {
      NumberPrefixToken(sc.buffer);
      match NewToken(sc.buffer)
      case Ok(t) =>
        assert forall i :: 0 <= i < |sc.tokens| ==> (sc.tokens + [t])[i] == sc.tokens[i];
      case Err(_) =>
    }
  }

  /** A run that panics does so on a number lexeme in progress that `Token::new` rejects. */
  lemma {:induction false} RunPanics(sc: Scanner, s: string)
    requires Reachable(sc)
    ensures Run(sc, s).Stopped? && Run(sc, s).error.Panicked? ==>
      NumberPrefix(Run(sc, s).error.lexeme) && NewToken(Run(sc, s).error.lexeme).Err?
    decreases |s|
  {
    if s != [] {
      StepReachable(sc, s[0]);
      match Step(sc, s[0])
      case Stopped(_) =>
      case Running(next) => RunPanics(next, s[1..]);
    }
  }

  // ----- well-formed input -----

  /** Number literals separated by single operator characters, as in `123+54-2*3/6^4`. */
  datatype Infix = Infix(first: Literal, rest: seq<(char, Literal)>)

  /** Operator characters, each followed by a valid literal. */
  predicate ValidPairs(rest: seq<(char, Literal)>) {
    forall i :: 0 <= i < |rest| ==> IsOperatorChar(rest[i].0) && rest[i].1.Valid()
  }

  predicate WellFormed(e: Infix) {
    e.first.Valid() && ValidPairs(e.rest)
  }

  function Tail(rest: seq<(char, Literal)>): string {
    if rest == [] then "" else [rest[0].0] + rest[0].1.Spelling() + Tail(rest[1..])
  }

  /** The text of an infix expression. */
  function Text(e: Infix): string {
    e.first.Spelling() + Tail(e.rest)
  }

  function TailTokens(rest: seq<(char, Literal)>): seq<Token>
    requires ValidPairs(rest)
  {
    if rest == [] then []
    else [OperatorToken(OperatorKind(rest[0].0)), NumberToken(rest[0].1.Value())] + TailTokens(rest[1..])
  }

  /** The tokens of an infix expression, in input order. */
  function InfixTokens(e: Infix): seq<Token>
    requires WellFormed(e)
  {
    [NumberToken(e.first.Value())] + TailTokens(e.rest)
  }

  lemma {:induction false} TailTokensAlternate(rest: seq<(char, Literal)>)
    requires ValidPairs(rest)
    ensures |TailTokens(rest)| == 2 * |rest|
    ensures forall i :: 0 <= i < |TailTokens(rest)| ==> (TailTokens(rest)[i].kind == Number <==> (i + 1) % 2 == 0)
  {
    if rest != [] {
      TailTokensAlternate(rest[1..]);
    }
  }

  /** The tokens of a well-formed expression alternate number/operator and
      begin and end with a number. */
  lemma InfixTokensAlternate(e: Infix)
    requires WellFormed(e)
    ensures Alternating(InfixTokens(e)) && |InfixTokens(e)| == 2 * |e.rest| + 1
  {
    TailTokensAlternate(e.rest);
    var ts, tail := InfixTokens(e), TailTokens(e.rest);
    assert ts == [NumberToken(e.first.Value())] + tail;
    forall i | 1 <= i < |ts|
      ensures ts[i].kind == Number <==> i % 2 == 0
    {
      assert ts[i] == tail[i - 1];
      assert (i - 1) + 1 == i;
    }
  }

  /** A valid literal's spelling starts with `-` or a digit, then only digits and points. */
  lemma SpellingIsNumberPrefix(l: Literal)
    requires l.Valid()
    ensures NumberPrefix(l.Spelling())
  {
    var s := l.Spelling();
    var u := l.whole + (if l.dot then "." else "") + l.fraction;
    assert s == (if l.negative then "-" else "") + u;
    forall i | 0 <= i < |u|
      ensures IsDigit(u[i]) || u[i] == '.'
    {
      if i >= |l.whole| + (if l.dot then 1 else 0) {
        assert u[i] == l.fraction[i - |l.whole| - (if l.dot then 1 else 0)];
      } else if i >= |l.whole| {
        assert u[i] == '.';
      } else {
        assert u[i] == l.whole[i];
      }
    }
  }

  /** Digits and points extend a number lexeme. */
  lemma {:induction false} ExtendNumber(v: seq<Token>, b: string, t: string)
    requires forall i :: 0 <= i < |t| ==> IsDigit(t[i]) || t[i] == '.'
    ensures Run(Scanner(v, b, InNumber), t) == Running(Scanner(v, b + t, InNumber))
    decreases |t|
  {
    if t != [] {
      assert b + t == (b + [t[0]]) + t[1..];
      ExtendNumber(v, b + [t[0]], t[1..]);
    }
  }

  /** Reading a whole literal when a number lexeme may start: the scanner
      ends inside that literal's number lexeme. */
  lemma ReadLiteral(v: seq<Token>, b: string, state: ParserState, l: Literal)
    requires l.Valid() && state != InNumber
    requires state == Idle ==> b == []
    requires state == InOperator ==> NewToken(b).Ok?
    ensures var v' := if state == Idle then v else v + [NewToken(b).value];
      Run(Scanner(v, b, state), l.Spelling()) == Running(Scanner(v', l.Spelling(), InNumber))
  {
    var s := l.Spelling();
    SpellingIsNumberPrefix(l);
    assert s == [s[0]] + s[1..];
    RunAppend(Scanner(v, b, state), [s[0]], s[1..]);
    var v' := if state == Idle then v else v + [NewToken(b).value];
    assert Run(Scanner(v, b, state), [s[0]]) == Running(Scanner(v', [s[0]], InNumber));
    ExtendNumber(v', [s[0]], s[1..]);
  }

  /** An operator character after a complete literal, then the next literal:
      both the literal and the operator are emitted. */
  lemma OperatorThenLiteral(v: seq<Token>, cur: Literal, op: char, lit: Literal, tail: string)
    requires cur.Valid() && lit.Valid() && IsOperatorChar(op)
    ensures Run(Scanner(v, cur.Spelling(), InNumber), [op] + lit.Spelling() + tail)
      == Run(Scanner(v + [NumberToken(cur.Value()), OperatorToken(OperatorKind(op))], lit.Spelling(), InNumber), tail)
  {
    LiteralToken(cur);
    OperatorLexeme(op);
    var sc := Scanner(v, cur.Spelling(), InNumber);
    var v1 := v + [NumberToken(cur.Value())];
    assert [op] + lit.Spelling() + tail == [op] + (lit.Spelling() + tail);
    RunAppend(sc, [op], lit.Spelling() + tail);
    LiteralThenOperator(v, cur, op);
    RunAppend(Scanner(v1, [op], InOperator), lit.Spelling(), tail);
    ReadLiteral(v1, [op], InOperator, lit);
    assert v1 + [OperatorToken(OperatorKind(op))] == v + [NumberToken(cur.Value()), OperatorToken(OperatorKind(op))];
  }

  /** An operator character ends a complete literal, which becomes a number token. */
  lemma LiteralThenOperator(v: seq<Token>, cur: Literal, op: char)
    requires cur.Valid() && IsOperatorChar(op)
    ensures Run(Scanner(v, cur.Spelling(), InNumber), [op])
      == Running(Scanner(v + [NumberToken(cur.Value())], [op], InOperator))
  {
    LiteralToken(cur);
    var sc := Scanner(v, cur.Spelling(), InNumber);
    assert !IsAlphabetic(op) && !IsDigit(op) && op != '.';
    assert Step(sc, op) == Flush(sc, op, InOperator);
    assert [op][1..] == [];
  }

  lemma {:induction false} RunTail(v: seq<Token>, cur: Literal, rest: seq<(char, Literal)>)
    requires cur.Valid()
    requires ValidPairs(rest)
    ensures Run(Scanner(v, cur.Spelling(), InNumber), Tail(rest)).Running?
    ensures Finish(Run(Scanner(v, cur.Spelling(), InNumber), Tail(rest)).scanner)
      == Ok(v + [NumberToken(cur.Value())] + TailTokens(rest))
    decreases |rest|
  {
    if rest != [] {
      var op, lit := rest[0].0, rest[0].1;
      OperatorThenLiteral(v, cur, op, lit, Tail(rest[1..]));
      var v2 := v + [NumberToken(cur.Value()), OperatorToken(OperatorKind(op))];
      RunTail(v2, lit, rest[1..]);
      var o, n := OperatorToken(OperatorKind(op)), NumberToken(lit.Value());
      assert TailTokens(rest) == [o, n] + TailTokens(rest[1..]);
      Regroup(v, NumberToken(cur.Value()), o, n, TailTokens(rest[1..]));
    } else {
      LastLiteral(v, cur);
    }
  }

  lemma Regroup(v: seq<Token>, a: Token, o: Token, n: Token, u: seq<Token>)
    ensures v + [a, o] + [n] + u == v + [a] + ([o, n] + u)
  {
    assert v + [a, o] + [n] == (v + [a]) + [o, n];
  }

  lemma LastLiteral(v: seq<Token>, cur: Literal)
    requires cur.Valid()
    ensures Run(Scanner(v, cur.Spelling(), InNumber), Tail([])) == Running(Scanner(v, cur.Spelling(), InNumber))
    ensures Finish(Scanner(v, cur.Spelling(), InNumber)) == Ok(v + [NumberToken(cur.Value())] + TailTokens([]))
  {
    LiteralToken(cur);
    SpellingIsNumberPrefix(cur);
    assert v + [NumberToken(cur.Value())] + TailTokens([]) == v + [NumberToken(cur.Value())];
  }

  /** The first literal of the input opens a number lexeme. */
  lemma FirstLiteral(l: Literal, tail: string)
    requires l.Valid()
    ensures Run(Start, l.Spelling() + tail) == Run(Scanner([], l.Spelling(), InNumber), tail)
  {
    RunAppend(Start, l.Spelling(), tail);
    ReadLiteral([], [], Idle, l);
  }

  /** On well-formed input `tokenize` returns the literals and operators in
      input order; a `-` at the start or right after an operator is the sign
      of the next literal. */
  lemma WellFormedTokens(e: Infix)
    requires WellFormed(e)
    ensures Lexed(Text(e)) == Ok(InfixTokens(e))
  {
    var first := NumberToken(e.first.Value());
    FirstLiteral(e.first, Tail(e.rest));
    RunTail([], e.first, e.rest);
    assert [] + [first] == [first];
    var r := Run(Scanner([], e.first.Spelling(), InNumber), Tail(e.rest));
    assert Run(Start, Text(e)) == r;
    assert Finish(r.scanner) == Ok([first] + TailTokens(e.rest));
  }
}
