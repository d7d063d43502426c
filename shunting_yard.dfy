/** `shunting_yard` of the `calculator` module: reorders infix tokens into
    reverse Polish order with an operator stack. It has no parentheses and
    never fails. */
module Shunting {
  import opened Errors
  import opened Tokens
  import opened Rpn

  /** The `while` condition: the stack top `top` leaves before operator `t`. */
  predicate PopsBefore(top: Token, t: Token) {
    top.precedence > t.precedence || (top.precedence == t.precedence && top.associativity == Left)
  }

  /** `reverse_notation` and `stack` between two input tokens (stack top at the end). */
  datatype Conversion = Conversion(output: seq<Token>, stack: seq<Token>)

  /** The inner `while` loop: move operators from the stack to the output
      while they leave before `t`. */
  function PopWhile(c: Conversion, t: Token): Conversion
    decreases |c.stack|
  {
    if c.stack != [] && PopsBefore(c.stack[|c.stack| - 1], t) then
      PopWhile(Conversion(c.output + [c.stack[|c.stack| - 1]], c.stack[..|c.stack| - 1]), t)
    else c
  }

  /** One input token: numbers go straight to the output, operators are
      pushed after the pops. */
  function Push(c: Conversion, t: Token): Conversion {
    if t.kind == Number then Conversion(c.output + [t], c.stack)
    else var p := PopWhile(c, t); Conversion(p.output, p.stack + [t])
  }

  /** The state after the first loop has read all of `ts`. */
  function Converted(ts: seq<Token>): Conversion {
    if ts == [] then Conversion([], []) else Push(Converted(ts[..|ts| - 1]), ts[|ts| - 1])
  }

  /** The final loop: pop the remaining operators into the output. */
  function Drain(c: Conversion): seq<Token>
    decreases |c.stack|
  {
    if c.stack == [] then c.output
    else Drain(Conversion(c.output + [c.stack[|c.stack| - 1]], c.stack[..|c.stack| - 1]))
  }

  /** What `shunting_yard` returns inside its `Ok`. */
  function ReversePolish(ts: seq<Token>): seq<Token> {
    Drain(Converted(ts))
  }

  method ShuntingYard(tokens: seq<Token>) returns (r: Result<seq<Token>>)
    ensures r == Ok(ReversePolish(tokens))
  {
    var reverseNotation: seq<Token> := [];
    var stack: seq<Token> := [];
    for i := 0 to |tokens|
      invariant Conversion(reverseNotation, stack) == Converted(tokens[..i])
    {
      var t := tokens[i];
      assert tokens[..i + 1][..i] == tokens[..i];
      if t.kind == Number {
        reverseNotation := reverseNotation + [t];
      } else if t.IsOperator() {
        ghost var before := Conversion(reverseNotation, stack);
        while stack != [] && (stack[|stack| - 1].precedence > t.precedence
            || (stack[|stack| - 1].precedence == t.precedence && stack[|stack| - 1].associativity == Left))
          invariant PopWhile(Conversion(reverseNotation, stack), t) == PopWhile(before, t)
          decreases |stack|
        {
          reverseNotation := reverseNotation + [stack[|stack| - 1]];
          stack := stack[..|stack| - 1];
        }
        stack := stack + [t];
      }
    }
    assert tokens[..|tokens|] == tokens;
    while stack != []
      invariant Drain(Conversion(reverseNotation, stack)) == ReversePolish(tokens)
      decreases |stack|
    {
      reverseNotation := reverseNotation + [stack[|stack| - 1]];
      stack := stack[..|stack| - 1];
    }
    return Ok(reverseNotation);
  }

  // ----- the operator stack -----

  predicate NoNumbers(st: seq<Token>) {
    forall i :: 0 <= i < |st| ==> st[i].IsOperator()
  }

  /** `a` may lie directly below `b` on the stack. */
  predicate Below(a: Token, b: Token) {
    a.precedence < b.precedence || (a.precedence == b.precedence && a.associativity == Right)
  }

  /** From bottom to top, each entry has lower precedence than the one above
      it, or equal precedence and right associativity. */
  predicate Ordered(st: seq<Token>) {
    forall i :: 0 < i < |st| ==> Below(st[i - 1], st[i])
  }

  /** The numbers of a sequence, in order. */
  function Numbers(ts: seq<Token>): seq<Token> {
    if ts == [] then []
    else Numbers(ts[..|ts| - 1]) + (if ts[|ts| - 1].kind == Number then [ts[|ts| - 1]] else [])
  }

  lemma NumbersSnoc(ts: seq<Token>, t: Token)
    ensures Numbers(ts + [t]) == Numbers(ts) + (if t.kind == Number then [t] else [])
  {
    assert (ts + [t])[..|ts|] == ts;
  }

  /** Popping leaves a bottom part of the stack, whose top may lie below `t`. */
  lemma {:induction false} PopWhileKeepsBottom(c: Conversion, t: Token)
    ensures var p := PopWhile(c, t);
      && |p.stack| <= |c.stack|
      && p.stack == c.stack[..|p.stack|]
      && (p.stack != [] ==> !PopsBefore(p.stack[|p.stack| - 1], t))
    decreases |c.stack|
  {
    if c.stack != [] && PopsBefore(c.stack[|c.stack| - 1], t) {
      var c' := Conversion(c.output + [c.stack[|c.stack| - 1]], c.stack[..|c.stack| - 1]);
      PopWhileKeepsBottom(c', t);
      var p := PopWhile(c', t);
      assert c'.stack[..|p.stack|] == c.stack[..|p.stack|];
    } else {
      assert c.stack[..|c.stack|] == c.stack;
    }
  }

  /** Popping only moves operators from the stack to the output. */
  lemma {:induction false} PopWhileMoves(c: Conversion, t: Token)
    requires NoNumbers(c.stack)
    ensures var p := PopWhile(c, t);
      && multiset(p.output) + multiset(p.stack) == multiset(c.output) + multiset(c.stack)
      && Numbers(p.output) == Numbers(c.output)
    decreases |c.stack|
  {
    if c.stack != [] && PopsBefore(c.stack[|c.stack| - 1], t) {
      var top := c.stack[|c.stack| - 1];
      var c' := Conversion(c.output + [top], c.stack[..|c.stack| - 1]);
      assert c.stack == c'.stack + [top];
      NumbersSnoc(c.output, top);
      PopWhileMoves(c', t);
    }
  }

  /** After every input token the stack holds only operators, ordered from
      bottom to top. */
  lemma {:induction false} StackOrdered(ts: seq<Token>)
    ensures NoNumbers(Converted(ts).stack) && Ordered(Converted(ts).stack)
    decreases |ts|
  {
    if ts != [] {
      var p, t := ts[..|ts| - 1], ts[|ts| - 1];
      StackOrdered(p);
      var c := Converted(p);
      if t.kind != Number {
        PopWhileKeepsBottom(c, t);
        var q := PopWhile(c, t);
        forall i | 0 <= i < |q.stack|
          ensures q.stack[i] == c.stack[i]
        {
        }
      }
    }
  }

  /** Output and stack together are a rearrangement of the input read so far. */
  lemma {:induction false} ConvertedPermutes(ts: seq<Token>)
    ensures multiset(Converted(ts).output) + multiset(Converted(ts).stack) == multiset(ts)
    decreases |ts|
  {
    if ts != [] {
      var p, t := ts[..|ts| - 1], ts[|ts| - 1];
      assert ts == p + [t];
      ConvertedPermutes(p);
      StackOrdered(p);
      var c := Converted(p);
      if t.kind != Number {
        PopWhileMoves(c, t);
        var q := PopWhile(c, t);
        assert Converted(ts) == Conversion(q.output, q.stack + [t]);
        assert multiset(q.stack + [t]) == multiset(q.stack) + multiset{t};
      }
    }
  }

  /** The output holds the numbers of the input read so far, in input order. */
  lemma {:induction false} ConvertedKeepsNumbers(ts: seq<Token>)
    ensures Numbers(Converted(ts).output) == Numbers(ts)
    decreases |ts|
  {
    if ts != [] {
      var p, t := ts[..|ts| - 1], ts[|ts| - 1];
      assert ts == p + [t];
      ConvertedKeepsNumbers(p);
      StackOrdered(p);
      NumbersSnoc(p, t);
      var c := Converted(p);
      if t.kind == Number {
        NumbersSnoc(c.output, t);
      } else {
        PopWhileMoves(c, t);
      }
    }
  }

  lemma {:induction false} DrainMoves(c: Conversion)
    requires NoNumbers(c.stack)
    ensures multiset(Drain(c)) == multiset(c.output) + multiset(c.stack)
    ensures Numbers(Drain(c)) == Numbers(c.output)
    decreases |c.stack|
  {
    if c.stack != [] {
      var top := c.stack[|c.stack| - 1];
      var c' := Conversion(c.output + [top], c.stack[..|c.stack| - 1]);
      assert c.stack == c'.stack + [top];
      NumbersSnoc(c.output, top);
      DrainMoves(c');
    }
  }

  /** The output is a permutation of the input, of the same length, and the
      numbers keep their relative input order. */
  lemma ReversePolishPermutes(ts: seq<Token>)
    ensures multiset(ReversePolish(ts)) == multiset(ts)
    ensures |ReversePolish(ts)| == |ts|
    ensures Numbers(ReversePolish(ts)) == Numbers(ts)
  {
    ConvertedPermutes(ts);
    ConvertedKeepsNumbers(ts);
    StackOrdered(ts);
    DrainMoves(Converted(ts));
    assert |multiset(ReversePolish(ts))| == |multiset(ts)|;
  }

  // ----- alternating input gives valid reverse Polish notation -----

  /** The output so far is a valid start of a reverse Polish sequence whose
      missing operators are exactly those on the stack. */
  predicate Balanced(c: Conversion, afterNumber: bool) {
    && NoNumbers(c.stack)
    && PrefixesPositive(c.output)
    && Depth(c.output) == |c.stack| + (if afterNumber then 1 else 0)
  }

  lemma {:induction false} PopWhileBalanced(c: Conversion, t: Token)
    requires Balanced(c, true)
    ensures Balanced(PopWhile(c, t), true)
    decreases |c.stack|
  {
    if c.stack != [] && PopsBefore(c.stack[|c.stack| - 1], t) {
      var top := c.stack[|c.stack| - 1];
      var c' := Conversion(c.output + [top], c.stack[..|c.stack| - 1]);
      DepthSnoc(c.output, top);
      PrefixesPositiveSnoc(c.output, top);
      PopWhileBalanced(c', t);
    }
  }

  lemma {:induction false} ConvertedBalanced(ts: seq<Token>)
    requires forall i :: 0 <= i < |ts| ==> (ts[i].kind == Number <==> i % 2 == 0)
    ensures Balanced(Converted(ts), |ts| % 2 == 1)
    decreases |ts|
  {
    if ts != [] {
      var p, t := ts[..|ts| - 1], ts[|ts| - 1];
      forall i | 0 <= i < |p|
        ensures p[i].kind == Number <==> i % 2 == 0
      {
        assert p[i] == ts[i];
      }
      ConvertedBalanced(p);
      assert ts == p + [t];
      if t.kind == Number {
        NumberBalanced(p, t);
      } else {
        OperatorBalanced(p, t);
      }
    }
  }

  lemma NumberBalanced(p: seq<Token>, t: Token)
    requires Balanced(Converted(p), |p| % 2 == 1) && t.kind == Number && |p| % 2 == 0
    ensures Balanced(Converted(p + [t]), |p + [t]| % 2 == 1)
  {
    var c := Converted(p);
    DepthSnoc(c.output, t);
    PrefixesPositiveSnoc(c.output, t);
    assert (p + [t])[..|p|] == p;
    assert Converted(p + [t]) == Conversion(c.output + [t], c.stack);
  }

  lemma OperatorBalanced(p: seq<Token>, t: Token)
    requires Balanced(Converted(p), |p| % 2 == 1) && t.kind != Number && |p| % 2 == 1
    ensures Balanced(Converted(p + [t]), |p + [t]| % 2 == 1)
  {
    var c := Converted(p);
    PopWhileBalanced(c, t);
    var q := PopWhile(c, t);
    assert (p + [t])[..|p|] == p;
    assert Converted(p + [t]) == Conversion(q.output, q.stack + [t]);
    assert NoNumbers(q.stack + [t]) by {
      assert forall i :: 0 <= i < |q.stack| ==> (q.stack + [t])[i] == q.stack[i];
    }
  }

  lemma {:induction false} DrainValid(c: Conversion)
    requires Balanced(c, true)
    ensures ValidRpn(Drain(c))
    decreases |c.stack|
  {
    if c.stack != [] {
      var top := c.stack[|c.stack| - 1];
      DepthSnoc(c.output, top);
      PrefixesPositiveSnoc(c.output, top);
      DrainValid(Conversion(c.output + [top], c.stack[..|c.stack| - 1]));
    }
  }

  /** Numbers alternating with operators, beginning and ending with a
      number, convert to valid reverse Polish notation. */
  lemma AlternatingGivesValidRpn(ts: seq<Token>)
    requires Alternating(ts)
    ensures ValidRpn(ReversePolish(ts))
  {
    ConvertedBalanced(ts);
    DrainValid(Converted(ts));
  }
}
