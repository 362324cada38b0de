/** Conversion of the classified token list to postfix (RPN) order with an
    explicit operator stack, following the source's own pop rule. The stack
    is a sequence whose last element is the top. */
module ShuntingYard {
  import opened Vocabulary

  /** An operator token names an entry of the operator table (the source
      looks precedences up with a throwing `at`). */
  predicate KnownToken(t: Token)
  {
    t.kind == OperatorToken ==> t.value in Operators
  }

  predicate Known(tokens: seq<Token>)
  {
    forall i :: 0 <= i < |tokens| ==> KnownToken(tokens[i])
  }

  function Precedence(t: Token): int
    requires t.value in Operators
  {
    Operators[t.value].precedence
  }

  function Top(stack: seq<Token>): Token
    requires stack != []
  {
    stack[|stack| - 1]
  }

  function Pop(stack: seq<Token>): seq<Token>
    requires stack != []
  {
    stack[..|stack| - 1]
  }

  /** Whether an operator on top of the stack is moved to the output when the
      operator `op` comes in: its precedence is at least that of `op` and
      `op` is left-associative. */
  predicate OperatorYields(top: Token, op: Token)
    requires top.value in Operators && op.value in Operators
  {
    Precedence(top) >= Precedence(op) && Operators[op.value].leftAssociative
  }

  /** The pop loop run for an incoming operator: stops at an empty stack, at
      a '(' or at an operator that does not yield; moves anything else (a
      function, or a yielding operator) to the output. */
  function PopOperators(stack: seq<Token>, out: seq<Token>, op: Token): (r: (seq<Token>, seq<Token>))
    requires Known(stack) && op.value in Operators
    ensures Known(r.0)
    decreases |stack|
  {
    if stack == [] || Top(stack).kind == OpenBToken then (stack, out)
    else if Top(stack).kind == OperatorToken && !OperatorYields(Top(stack), op) then (stack, out)
    else PopOperators(Pop(stack), out + [Top(stack)], op)
  }

  /** The pop loop run for a ')': moves everything above the nearest '(' to
      the output and discards the '('; fails when there is none. */
  function PopToOpen(stack: seq<Token>, out: seq<Token>): (r: Result<(seq<Token>, seq<Token>)>)
    requires Known(stack)
    ensures r.Success? ==> Known(r.value.0)
    decreases |stack|
  {
    if stack == [] then Failure(MismatchedParenthesis)
    else if Top(stack).kind == OpenBToken then Success((Pop(stack), out))
    else PopToOpen(Pop(stack), out + [Top(stack)])
  }

  /** The final loop: moves the whole stack to the output, failing on a '('. */
  function Drain(stack: seq<Token>, out: seq<Token>): Result<seq<Token>>
    decreases |stack|
  {
    if stack == [] then Success(out)
    else if Top(stack).kind == OpenBToken then Failure(MismatchedParenthesis)
    else Drain(Pop(stack), out + [Top(stack)])
  }

  /** One token of the conversion: '(' and function tokens are pushed,
      numbers and constants go to the output, an operator pops what yields
      to it and is pushed, a ')' pops to its '('; other tokens are skipped. */
  function Step(t: Token, stack: seq<Token>, out: seq<Token>): (r: Result<(seq<Token>, seq<Token>)>)
    requires KnownToken(t) && Known(stack)
    ensures r.Success? ==> Known(r.value.0)
  {
    if t.kind == OpenBToken || t.kind == FunctionToken then
      Success((stack + [t], out))
    else if t.kind == NumberToken || t.kind == VariableToken then
      Success((stack, out + [t]))
    else if t.kind == OperatorToken then
      var popped := PopOperators(stack, out, t);
      Success((popped.0 + [t], popped.1))
    else if t.kind == CloseBToken then
      PopToOpen(stack, out)
    else
      Success((stack, out))
  }

  /** The conversion from the given stack and output on, ending with the
      final drain. */
  function Shunt(tokens: seq<Token>, stack: seq<Token>, out: seq<Token>): Result<seq<Token>>
    requires Known(tokens) && Known(stack)
    decreases |tokens|
  {
    if tokens == [] then Drain(stack, out)
    else
      match Step(tokens[0], stack, out)
      case Failure(e) => Failure(e)
      case Success(next) => Shunt(tokens[1..], next.0, next.1)
  }

  function ToRpn(tokens: seq<Token>): Result<seq<Token>>
    requires Known(tokens)
  {
    Shunt(tokens, [], [])
  }

  /** For this operator table the rule above is the textbook one: pop a
      strictly higher precedence, or an equal one when the incoming operator
      is left-associative. The two would differ only for a right-associative
      operator below another, and '^' has the highest precedence. */
  lemma YieldsIsTextbookRule(top: Token, op: Token)
    requires top.value in Operators && op.value in Operators
    ensures OperatorYields(top, op) <==>
      Precedence(top) > Precedence(op)
      || (Precedence(top) == Precedence(op) && Operators[op.value].leftAssociative)
  {
  }

  /** Nothing yields to an incoming '^', so `2^3^2` groups to the right. */
  lemma NothingYieldsToPower(top: Token, op: Token)
    requires top.value in Operators && op.value == "^"
    ensures !OperatorYields(top, op)
  {
  }

  /** The infix-to-postfix loop over the token list. */
  method Convert(tokens: seq<Token>) returns (r: Result<seq<Token>>)
    requires Known(tokens)
    ensures r == ToRpn(tokens)
    ensures r.Success? ==> forall i :: 0 <= i < |r.value| ==> IsRpnItem(r.value[i])
    ensures r.Success? ==> multiset(r.value) == multiset(Filter(IsRpnItem, tokens))
    ensures r.Success? ==> Filter(IsOperand, r.value) == Filter(IsOperand, tokens)
    ensures r.Failure? <==> !Balanced(tokens)
    ensures r.Failure? ==> r.error == MismatchedParenthesis
  {
    var operatorStack: seq<Token> := [];
    var exprQueue: seq<Token> := [];
    for i := 0 to |tokens|
      invariant Known(operatorStack)
      invariant Shunt(tokens[i..], operatorStack, exprQueue) == ToRpn(tokens)
    {
      var token := tokens[i];
      assert tokens[i..][1..] == tokens[i + 1..];
      if token.kind == OpenBToken || token.kind == FunctionToken {
        operatorStack := operatorStack + [token];
      } else if token.kind == NumberToken || token.kind == VariableToken {
        exprQueue := exprQueue + [token];
      } else if token.kind == OperatorToken {
        ghost var popped := PopOperators(operatorStack, exprQueue, token);
        while operatorStack != [] && Top(operatorStack).kind != OpenBToken
          invariant Known(operatorStack)
          invariant PopOperators(operatorStack, exprQueue, token) == popped
          decreases |operatorStack|
        {
          var top := Top(operatorStack);
          if top.kind == OperatorToken {
            var topPrecedence := Operators[top.value].precedence;
            var tokenPrecedence := Operators[token.value].precedence;
            var isLeftAssociative := Operators[token.value].leftAssociative;
            if topPrecedence >= tokenPrecedence && isLeftAssociative {
              exprQueue := exprQueue + [top];
              operatorStack := Pop(operatorStack);
            } else {
              break;
            }
          } else {
            exprQueue := exprQueue + [top];
            operatorStack := Pop(operatorStack);
          }
        }
        operatorStack := operatorStack + [token];
      } else if token.kind == CloseBToken {
        ghost var popped := PopToOpen(operatorStack, exprQueue);
        while operatorStack != [] && Top(operatorStack).kind != OpenBToken
          invariant Known(operatorStack)
          invariant PopToOpen(operatorStack, exprQueue) == popped
          decreases |operatorStack|
        {
          exprQueue := exprQueue + [Top(operatorStack)];
          operatorStack := Pop(operatorStack);
        }
        if operatorStack == [] {
          r := Failure(MismatchedParenthesis);
          ConvertProperties(tokens);
          return;
        }
        operatorStack := Pop(operatorStack);
      }
    }
    ghost var drained := Drain(operatorStack, exprQueue);
    while operatorStack != []
      invariant Drain(operatorStack, exprQueue) == drained
      decreases |operatorStack|
    {
      if Top(operatorStack).kind == OpenBToken {
        r := Failure(MismatchedParenthesis);
        ConvertProperties(tokens);
        return;
      }
      exprQueue := exprQueue + [Top(operatorStack)];
      operatorStack := Pop(operatorStack);
    }
    r := Success(exprQueue);
    ConvertProperties(tokens);
  }

  // ---------------------------------------------------------------------
  // What the conversion guarantees

  /** The tokens that can appear in postfix output. */
  predicate IsRpnItem(t: Token)
  {
    t.kind == NumberToken || t.kind == VariableToken || t.kind == OperatorToken || t.kind == FunctionToken
  }

  predicate IsOperand(t: Token)
  {
    t.kind == NumberToken || t.kind == VariableToken
  }

  /** The tokens the operator stack may hold. */
  predicate IsStackable(t: Token)
  {
    t.kind == OpenBToken || t.kind == OperatorToken || t.kind == FunctionToken
  }

  function Filter(p: Token -> bool, ts: seq<Token>): seq<Token>
  {
    if ts == [] then [] else (if p(ts[0]) then [ts[0]] else []) + Filter(p, ts[1..])
  }

  lemma {:induction false} FilterAppend(p: Token -> bool, a: seq<Token>, b: seq<Token>)
    ensures Filter(p, a + b) == Filter(p, a) + Filter(p, b)
    decreases |a|
  {
    if a == [] {
      assert a + b == b;
    } else {
      var head := if p(a[0]) then [a[0]] else [];
      assert (a + b)[0] == a[0];
      assert (a + b)[1..] == a[1..] + b;
      assert Filter(p, a + b) == head + Filter(p, a[1..] + b);
      assert Filter(p, a) == head + Filter(p, a[1..]);
      FilterAppend(p, a[1..], b);
      Associative(head, Filter(p, a[1..]), Filter(p, b));
    }
  }

  /** How many '(' the stack holds. */
  function OpenCount(stack: seq<Token>): nat
  {
    if stack == [] then 0 else OpenCount(Pop(stack)) + (if Top(stack).kind == OpenBToken then 1 else 0)
  }

  function DepthChange(t: Token): int
  {
    if t.kind == OpenBToken then 1 else if t.kind == CloseBToken then -1 else 0
  }

  /** Starting `depth` parentheses deep, no prefix closes more than is open
      and everything is closed at the end. */
  predicate BalancedFrom(tokens: seq<Token>, depth: int)
    decreases |tokens|
  {
    if tokens == [] then depth == 0
    else depth + DepthChange(tokens[0]) >= 0 && BalancedFrom(tokens[1..], depth + DepthChange(tokens[0]))
  }

  predicate Balanced(tokens: seq<Token>)
  {
    BalancedFrom(tokens, 0)
  }

  /** The invariant the conversion keeps: the stack holds only '(',
      operators and functions; the output only postfix items. */
  predicate Shape(stack: seq<Token>, out: seq<Token>)
  {
    (forall i :: 0 <= i < |stack| ==> IsStackable(stack[i]))
    && (forall i :: 0 <= i < |out| ==> IsRpnItem(out[i]))
  }

  /** What the stack and the output hold together, counted as a bag. */
  function Held(stack: seq<Token>, out: seq<Token>): multiset<Token>
  {
    multiset(out) + multiset(Filter(IsRpnItem, stack))
  }

  lemma {:induction false} PopOperatorsKeeps(stack: seq<Token>, out: seq<Token>, op: Token)
    requires Known(stack) && op.value in Operators && Shape(stack, out)
    ensures var r := PopOperators(stack, out, op);
      && Shape(r.0, r.1)
      && Held(r.0, r.1) == Held(stack, out)
      && Filter(IsOperand, r.1) == Filter(IsOperand, out)
      && OpenCount(r.0) == OpenCount(stack)
    decreases |stack|
  {
    if stack == [] || Top(stack).kind == OpenBToken {
    } else if Top(stack).kind == OperatorToken && !OperatorYields(Top(stack), op) {
    } else {
      PopMovesTop(stack, out);
      PopOperatorsKeeps(Pop(stack), out + [Top(stack)], op);
    }
  }

  /** Moving the top of the stack to the output keeps the shape, the bag and
      the operands; it lowers the count of '(' only when the top is a '('. */
  lemma PopMovesTop(stack: seq<Token>, out: seq<Token>)
    requires stack != [] && Top(stack).kind != OpenBToken && Shape(stack, out)
    ensures Shape(Pop(stack), out + [Top(stack)])
    ensures Held(Pop(stack), out + [Top(stack)]) == Held(stack, out)
    ensures Filter(IsOperand, out + [Top(stack)]) == Filter(IsOperand, out)
    ensures OpenCount(Pop(stack)) == OpenCount(stack)
  {
    PopKeepsShape(stack, out);
    PopKeepsBag(stack, out);
  }

  lemma PopKeepsShape(stack: seq<Token>, out: seq<Token>)
    requires stack != [] && Shape(stack, out)
    ensures IsStackable(Top(stack))
    ensures IsRpnItem(Top(stack)) <==> Top(stack).kind != OpenBToken
    ensures Top(stack).kind != OpenBToken ==> Shape(Pop(stack), out + [Top(stack)])
    ensures Top(stack).kind == OpenBToken ==> Shape(Pop(stack), out)
  {
    var top := Top(stack);
    var rest := Pop(stack);
    assert IsStackable(stack[|stack| - 1]);
    forall i | 0 <= i < |rest|
      ensures IsStackable(rest[i])
    {
      assert rest[i] == stack[i];
    }
    if top.kind != OpenBToken {
      forall i | 0 <= i < |out| + 1
        ensures IsRpnItem((out + [top])[i])
      {
        if i < |out| {
          assert (out + [top])[i] == out[i];
        }
      }
    }
  }

  lemma PopKeepsBag(stack: seq<Token>, out: seq<Token>)
    requires stack != [] && Top(stack).kind != OpenBToken && IsStackable(Top(stack))
    ensures Held(Pop(stack), out + [Top(stack)]) == Held(stack, out)
    ensures Filter(IsOperand, out + [Top(stack)]) == Filter(IsOperand, out)
  {
    var top := Top(stack);
    StackBag(stack);
    FilterSingle(IsOperand, top);
    FilterAppend(IsOperand, out, [top]);
    assert multiset(out + [top]) == multiset(out) + multiset{top};
  }

  /** The top of a stack that is not a '(' leaves its postfix items. */
  lemma StackBag(stack: seq<Token>)
    requires stack != [] && Top(stack).kind != OpenBToken && IsStackable(Top(stack))
    ensures multiset(Filter(IsRpnItem, stack)) == multiset(Filter(IsRpnItem, Pop(stack))) + multiset{Top(stack)}
  {
    var top, rest := Top(stack), Pop(stack);
    PopSplits(stack);
    FilterSingle(IsRpnItem, top);
    FilterAppend(IsRpnItem, rest, [top]);
  }

  lemma PopSplits(stack: seq<Token>)
    requires stack != []
    ensures stack == Pop(stack) + [Top(stack)]
  {
  }

  lemma {:induction false} PopToOpenKeeps(stack: seq<Token>, out: seq<Token>)
    requires Known(stack) && Shape(stack, out)
    ensures PopToOpen(stack, out).Failure? <==> OpenCount(stack) == 0
    ensures PopToOpen(stack, out).Failure? ==> PopToOpen(stack, out).error == MismatchedParenthesis
    ensures PopToOpen(stack, out).Success? ==>
      var r := PopToOpen(stack, out).value;
      && Shape(r.0, r.1)
      && Held(r.0, r.1) == Held(stack, out)
      && Filter(IsOperand, r.1) == Filter(IsOperand, out)
      && OpenCount(r.0) == OpenCount(stack) - 1
    decreases |stack|
  {
    if stack == [] {
    } else if Top(stack).kind == OpenBToken {
      PopKeepsShape(stack, out);
      DiscardOpen(stack);
    } else {
      PopMovesTop(stack, out);
      KnownPop(stack);
      PopToOpenKeeps(Pop(stack), out + [Top(stack)]);
    }
  }

  /** Discarding a '(' from the top of the stack loses no postfix item. */
  lemma DiscardOpen(stack: seq<Token>)
    requires stack != [] && Top(stack).kind == OpenBToken
    ensures Filter(IsRpnItem, Pop(stack)) == Filter(IsRpnItem, stack)
    ensures OpenCount(Pop(stack)) == OpenCount(stack) - 1
  {
    var top := Top(stack);
    assert stack == Pop(stack) + [top];
    assert Filter(IsRpnItem, [top]) == [] by {
      assert [top][1..] == [];
    }
    FilterAppend(IsRpnItem, Pop(stack), [top]);
  }

  lemma KnownPop(stack: seq<Token>)
    requires stack != [] && Known(stack)
    ensures Known(Pop(stack))
  {
    forall i | 0 <= i < |Pop(stack)|
      ensures KnownToken(Pop(stack)[i])
    {
      assert Pop(stack)[i] == stack[i];
    }
  }

  lemma {:induction false} DrainKeeps(stack: seq<Token>, out: seq<Token>)
    requires Shape(stack, out)
    ensures Drain(stack, out).Failure? <==> OpenCount(stack) > 0
    ensures Drain(stack, out).Failure? ==> Drain(stack, out).error == MismatchedParenthesis
    ensures Drain(stack, out).Success? ==>
      var r := Drain(stack, out).value;
      && (forall i :: 0 <= i < |r| ==> IsRpnItem(r[i]))
      && multiset(r) == Held(stack, out)
      && Filter(IsOperand, r) == Filter(IsOperand, out)
    decreases |stack|
  {
    if stack == [] {
    } else if Top(stack).kind == OpenBToken {
    } else {
      PopMovesTop(stack, out);
      DrainKeeps(Pop(stack), out + [Top(stack)]);
    }
  }

  /** How one token moves the state: the shape is kept, the token's own
      postfix item (if any) joins the bag and its operand (if any) the
      operands, and the count of '(' moves by the token's change. */
  predicate Advances(stack: seq<Token>, out: seq<Token>, t: Token, stack': seq<Token>, out': seq<Token>)
  {
    && Shape(stack', out')
    && Held(stack', out') == Held(stack, out) + multiset(Filter(IsRpnItem, [t]))
    && Filter(IsOperand, out') == Filter(IsOperand, out) + Filter(IsOperand, [t])
    && OpenCount(stack') == OpenCount(stack) + DepthChange(t)
  }

  /** One step keeps the invariant; it fails, always with a parenthesis
      mismatch, exactly when a ')' finds no '(' on the stack. */
  lemma StepKeeps(t: Token, stack: seq<Token>, out: seq<Token>)
    requires KnownToken(t) && Known(stack) && Shape(stack, out)
    ensures Step(t, stack, out).Failure? <==> OpenCount(stack) + DepthChange(t) < 0
    ensures Step(t, stack, out).Failure? ==> Step(t, stack, out).error == MismatchedParenthesis
    ensures Step(t, stack, out).Success? ==>
      Advances(stack, out, t, Step(t, stack, out).value.0, Step(t, stack, out).value.1)
  {
    FilterSingle(IsRpnItem, t);
    FilterSingle(IsOperand, t);
    if t.kind == OpenBToken || t.kind == FunctionToken {
      PushAdvances(stack, out, t);
    } else if t.kind == NumberToken || t.kind == VariableToken {
      OutputAdvances(stack, out, t);
    } else if t.kind == OperatorToken {
      OperatorAdvances(stack, out, t);
    } else if t.kind == CloseBToken {
      PopToOpenKeeps(stack, out);
    }
  }

  lemma PushAdvances(stack: seq<Token>, out: seq<Token>, t: Token)
    requires Shape(stack, out) && IsStackable(t)
    ensures Advances(stack, out, t, stack + [t], out)
  {
    FilterSingle(IsOperand, t);
    assert Filter(IsOperand, out) + Filter(IsOperand, [t]) == Filter(IsOperand, out);
    Push(stack, t);
    assert Held(stack + [t], out) == Held(stack, out) + multiset(Filter(IsRpnItem, [t]));
    PushShape(stack, out, t);
  }

  lemma OutputAdvances(stack: seq<Token>, out: seq<Token>, t: Token)
    requires Shape(stack, out) && (t.kind == NumberToken || t.kind == VariableToken)
    ensures Advances(stack, out, t, stack, out + [t])
  {
    FilterSingle(IsRpnItem, t);
    FilterSingle(IsOperand, t);
    FilterAppend(IsOperand, out, [t]);
    AppendShape(stack, out, t);
    assert multiset(out + [t]) == multiset(out) + multiset([t]);
    assert Held(stack, out + [t]) == Held(stack, out) + multiset([t]);
  }

  lemma OperatorAdvances(stack: seq<Token>, out: seq<Token>, t: Token)
    requires Known(stack) && Shape(stack, out) && t.kind == OperatorToken && t.value in Operators
    ensures var popped := PopOperators(stack, out, t);
      Advances(stack, out, t, popped.0 + [t], popped.1)
  {
    PopOperatorsKeeps(stack, out, t);
    var popped := PopOperators(stack, out, t);
    PushAdvances(popped.0, popped.1, t);
  }

  lemma FilterSingle(p: Token -> bool, t: Token)
    ensures Filter(p, [t]) == if p(t) then [t] else []
  {
    assert [t][1..] == [];
  }

  lemma PushShape(stack: seq<Token>, out: seq<Token>, t: Token)
    requires Shape(stack, out) && IsStackable(t)
    ensures Shape(stack + [t], out)
  {
    forall i | 0 <= i < |stack| + 1
      ensures IsStackable((stack + [t])[i])
    {
      if i < |stack| {
        assert (stack + [t])[i] == stack[i];
      }
    }
  }

  lemma AppendShape(stack: seq<Token>, out: seq<Token>, t: Token)
    requires Shape(stack, out) && IsRpnItem(t)
    ensures Shape(stack, out + [t])
  {
    forall i | 0 <= i < |out| + 1
      ensures IsRpnItem((out + [t])[i])
    {
      if i < |out| {
        assert (out + [t])[i] == out[i];
      }
    }
  }

  /** Pushing a token adds it to the stack's items and counts a '('. */
  lemma Push(stack: seq<Token>, t: Token)
    ensures Pop(stack + [t]) == stack && Top(stack + [t]) == t
    ensures multiset(Filter(IsRpnItem, stack + [t])) == multiset(Filter(IsRpnItem, stack)) + multiset(Filter(IsRpnItem, [t]))
    ensures OpenCount(stack + [t]) == OpenCount(stack) + (if t.kind == OpenBToken then 1 else 0)
  {
    assert Pop(stack + [t]) == stack;
    FilterAppend(IsRpnItem, stack, [t]);
  }

  /** What a finished conversion from `stack` and `out` over `tokens` has
      produced: only postfix items, each item of the stack, the output and
      the input exactly once, and the numbers and constants in order. */
  predicate Finishes(tokens: seq<Token>, stack: seq<Token>, out: seq<Token>, r: seq<Token>)
  {
    && (forall i :: 0 <= i < |r| ==> IsRpnItem(r[i]))
    && multiset(r) == Held(stack, out) + multiset(Filter(IsRpnItem, tokens))
    && Filter(IsOperand, r) == Filter(IsOperand, out) + Filter(IsOperand, tokens)
  }

  /** The conversion from any reachable state: it fails, always with a
      parenthesis mismatch, exactly when the rest of the input is unbalanced
      counting the '(' on the stack, and otherwise finishes as above. */
  lemma {:induction false} ShuntKeeps(tokens: seq<Token>, stack: seq<Token>, out: seq<Token>)
    requires Known(tokens) && Known(stack) && Shape(stack, out)
    ensures Shunt(tokens, stack, out).Failure? <==> !BalancedFrom(tokens, OpenCount(stack))
    ensures Shunt(tokens, stack, out).Failure? ==> Shunt(tokens, stack, out).error == MismatchedParenthesis
    ensures Shunt(tokens, stack, out).Success? ==> Finishes(tokens, stack, out, Shunt(tokens, stack, out).value)
    decreases |tokens|, 2
  {
    if tokens == [] {
      DrainKeeps(stack, out);
      assert Filter(IsRpnItem, tokens) == [] && Filter(IsOperand, tokens) == [];
    } else {
      ShuntConsKeeps(tokens, stack, out);
    }
  }

  /** The conversion of a non-empty input: the first step, then the rest. */
  lemma {:induction false} ShuntConsKeeps(tokens: seq<Token>, stack: seq<Token>, out: seq<Token>)
    requires tokens != [] && Known(tokens) && Known(stack) && Shape(stack, out)
    ensures Shunt(tokens, stack, out).Failure? <==> !BalancedFrom(tokens, OpenCount(stack))
    ensures Shunt(tokens, stack, out).Failure? ==> Shunt(tokens, stack, out).error == MismatchedParenthesis
    ensures Shunt(tokens, stack, out).Success? ==> Finishes(tokens, stack, out, Shunt(tokens, stack, out).value)
    decreases |tokens|, 1
  {
    KnownTail(tokens);
    if Step(tokens[0], stack, out).Failure? {
      FirstStepFails(tokens, stack, out);
    } else {
      FirstStepGoes(tokens, stack, out);
    }
  }

  /** A first step that fails is a ')' with no '(' open. */
  lemma FirstStepFails(tokens: seq<Token>, stack: seq<Token>, out: seq<Token>)
    requires tokens != [] && Known(tokens) && Known(stack) && Shape(stack, out)
    requires KnownToken(tokens[0]) && Step(tokens[0], stack, out).Failure?
    ensures Shunt(tokens, stack, out).Failure? && !BalancedFrom(tokens, OpenCount(stack))
    ensures Shunt(tokens, stack, out).error == MismatchedParenthesis
  {
    StepKeeps(tokens[0], stack, out);
  }

  /** After a first step that succeeds, the rest of the conversion decides. */
  lemma {:induction false} FirstStepGoes(tokens: seq<Token>, stack: seq<Token>, out: seq<Token>)
    requires tokens != [] && Known(tokens) && Known(stack) && Shape(stack, out)
    requires KnownToken(tokens[0]) && Known(tokens[1..]) && Step(tokens[0], stack, out).Success?
    ensures Shunt(tokens, stack, out).Failure? <==> !BalancedFrom(tokens, OpenCount(stack))
    ensures Shunt(tokens, stack, out).Failure? ==> Shunt(tokens, stack, out).error == MismatchedParenthesis
    ensures Shunt(tokens, stack, out).Success? ==> Finishes(tokens, stack, out, Shunt(tokens, stack, out).value)
    decreases |tokens|, 0
  {
    var next := Step(tokens[0], stack, out).value;
    StepGoes(tokens, stack, out);
    ShuntKeeps(tokens[1..], next.0, next.1);
    if Shunt(tokens[1..], next.0, next.1).Success? {
      FinishesCons(tokens, stack, out, next.0, next.1, Shunt(tokens[1..], next.0, next.1).value);
    }
  }

  /** A first step that succeeds hands the rest of the input, with the
      same balance still to reach, to the conversion from the new state. */
  lemma StepGoes(tokens: seq<Token>, stack: seq<Token>, out: seq<Token>)
    requires tokens != [] && Known(tokens) && Known(stack) && Shape(stack, out)
    requires KnownToken(tokens[0]) && Known(tokens[1..]) && Step(tokens[0], stack, out).Success?
    ensures var next := Step(tokens[0], stack, out).value;
      && Advances(stack, out, tokens[0], next.0, next.1)
      && Shunt(tokens, stack, out) == Shunt(tokens[1..], next.0, next.1)
      && (BalancedFrom(tokens, OpenCount(stack)) <==> BalancedFrom(tokens[1..], OpenCount(next.0)))
  {
    var next := Step(tokens[0], stack, out).value;
    var depth := OpenCount(stack) + DepthChange(tokens[0]);
    StepKeeps(tokens[0], stack, out);
    assert OpenCount(next.0) == depth && depth >= 0;
    BalancedStep(tokens, OpenCount(stack), OpenCount(next.0));
    ShuntUnfolds(tokens, stack, out);
  }

  lemma ShuntUnfolds(tokens: seq<Token>, stack: seq<Token>, out: seq<Token>)
    requires tokens != [] && Known(tokens) && Known(stack)
    requires KnownToken(tokens[0]) && Known(tokens[1..]) && Step(tokens[0], stack, out).Success?
    ensures Shunt(tokens, stack, out) == Shunt(tokens[1..], Step(tokens[0], stack, out).value.0, Step(tokens[0], stack, out).value.1)
  {
  }

  /** A first token that keeps the depth non-negative leaves the balance
      to the rest, from the new depth. */
  lemma BalancedStep(tokens: seq<Token>, depth: int, depth': int)
    requires tokens != [] && depth' == depth + DepthChange(tokens[0]) && depth' >= 0
    ensures BalancedFrom(tokens, depth) == BalancedFrom(tokens[1..], depth')
  {
  }

  lemma KnownTail(tokens: seq<Token>)
    requires tokens != [] && Known(tokens)
    ensures KnownToken(tokens[0]) && Known(tokens[1..])
  {
    forall i | 0 <= i < |tokens| - 1
      ensures KnownToken(tokens[1..][i])
    {
      assert tokens[1..][i] == tokens[i + 1];
    }
  }

  /** A step that advances the state, followed by a conversion that
      finishes from the new state, finishes from the old one. */
  lemma FinishesCons(tokens: seq<Token>, stack: seq<Token>, out: seq<Token>, stack': seq<Token>, out': seq<Token>, r: seq<Token>)
    requires tokens != []
    requires Advances(stack, out, tokens[0], stack', out')
    requires Finishes(tokens[1..], stack', out', r)
    ensures Finishes(tokens, stack, out, r)
  {
    FilterCons(IsOperand, tokens);
    Associative(Filter(IsOperand, out), Filter(IsOperand, [tokens[0]]), Filter(IsOperand, tokens[1..]));
    FilterCons(IsRpnItem, tokens);
  }

  lemma FilterCons(p: Token -> bool, ts: seq<Token>)
    requires ts != []
    ensures Filter(p, ts) == Filter(p, [ts[0]]) + Filter(p, ts[1..])
  {
    FilterSingle(p, ts[0]);
  }

  lemma Associative(a: seq<Token>, b: seq<Token>, c: seq<Token>)
    ensures (a + b) + c == a + (b + c)
  {
  }

  /** The conversion of a whole token list. */
  lemma ConvertProperties(tokens: seq<Token>)
    requires Known(tokens)
    ensures ToRpn(tokens).Failure? <==> !Balanced(tokens)
    ensures ToRpn(tokens).Failure? ==> ToRpn(tokens).error == MismatchedParenthesis
    ensures ToRpn(tokens).Success? ==>
      var r := ToRpn(tokens).value;
      && (forall i :: 0 <= i < |r| ==> IsRpnItem(r[i]))
      && multiset(r) == multiset(Filter(IsRpnItem, tokens))
      && Filter(IsOperand, r) == Filter(IsOperand, tokens)
  {
    ShuntKeeps(tokens, [], []);
    assert Held([], []) == multiset{};
  }

  // ---------------------------------------------------------------------
  // Worked conversions

  function Num(s: string): Token { Token(s, NumberToken) }

  function Op(s: string): Token { Token(s, OperatorToken) }

  /** `x o y o z` with a left-associative `o` becomes `x y o z o`. */
  lemma LeftAssociativeGroupsLeft(x: Token, y: Token, z: Token, o: Token)
    requires IsOperand(x) && IsOperand(y) && IsOperand(z)
    requires o.kind == OperatorToken && o.value in Operators && Operators[o.value].leftAssociative
    ensures Known([x, o, y, o, z])
    ensures ToRpn([x, o, y, o, z]) == Success([x, y, o, z, o])
  {
    OpeningThree(x, o, y, [o, z]);
    assert [x, o, y] + [o, z] == [x, o, y, o, z];
    EqualPrecedencePops(o, o, [x, y]);
    ClosingTwo(o, z, [o], [x, y]);
    DrainSingle([x, y, o, z], o);
    assert [x, y] + [o] + [z] == [x, y, o, z];
    assert [x, y, o, z] + [o] == [x, y, o, z, o];
  }

  /** `x o y o z` with a right-associative `o` becomes `x y z o o`. */
  lemma RightAssociativeGroupsRight(x: Token, y: Token, z: Token, o: Token)
    requires IsOperand(x) && IsOperand(y) && IsOperand(z)
    requires o.kind == OperatorToken && o.value in Operators && !Operators[o.value].leftAssociative
    ensures Known([x, o, y, o, z])
    ensures ToRpn([x, o, y, o, z]) == Success([x, y, z, o, o])
  {
    OpeningThree(x, o, y, [o, z]);
    assert [x, o, y] + [o, z] == [x, o, y, o, z];
    StaysBelow(o, o, [x, y]);
    ClosingTwo(o, z, [o], [x, y]);
    DrainExample([x, y, z], o, o);
    assert [x, y] + [z] == [x, y, z];
    assert [x, y, z] + [o, o] == [x, y, z, o, o];
  }

  /** `x p y q z` where `q` binds tighter than `p` becomes `x y z q p`. */
  lemma TighterOperatorFirst(x: Token, y: Token, z: Token, p: Token, q: Token)
    requires IsOperand(x) && IsOperand(y) && IsOperand(z)
    requires p.kind == OperatorToken && p.value in Operators
    requires q.kind == OperatorToken && q.value in Operators
    requires Precedence(q) > Precedence(p)
    ensures Known([x, p, y, q, z])
    ensures ToRpn([x, p, y, q, z]) == Success([x, y, z, q, p])
  {
    OpeningThree(x, p, y, [q, z]);
    assert [x, p, y] + [q, z] == [x, p, y, q, z];
    StaysBelow(p, q, [x, y]);
    ClosingTwo(q, z, [p], [x, y]);
    DrainExample([x, y, z], p, q);
    assert [x, y] + [z] == [x, y, z];
    assert [x, y, z] + [q, p] == [x, y, z, q, p];
  }

  /** The first three tokens `x o y` of an input leave `o` on the stack and
      `x y` in the output. */
  lemma OpeningThree(x: Token, o: Token, y: Token, rest: seq<Token>)
    requires IsOperand(x) && IsOperand(y)
    requires o.kind == OperatorToken && o.value in Operators
    requires Known(rest)
    ensures Known([x, o, y] + rest)
    ensures Shunt([x, o, y] + rest, [], []) == Shunt(rest, [o], [x, y])
  {
    var tokens := [x, o, y] + rest;
    assert Known(tokens) by {
      forall i | 0 <= i < |tokens|
        ensures KnownToken(tokens[i])
      {
        if i >= 3 {
          assert tokens[i] == rest[i - 3];
        }
      }
    }
    assert tokens[0] == x && tokens[1..][0] == o && tokens[1..][1..][0] == y;
    assert tokens[1..][1..][1..] == rest;
    var r1 := Step(x, [], []);
    assert r1.Success? && r1.value.0 == [] && r1.value.1 == [x];
    var r2 := Step(o, r1.value.0, r1.value.1);
    assert r2.Success? && r2.value.0 == [o] && r2.value.1 == [x];
    var r3 := Step(y, r2.value.0, r2.value.1);
    assert r3.Success? && r3.value.0 == [o] && r3.value.1 == [x, y];
    assert Shunt(tokens, [], []) == Shunt(tokens[1..], r1.value.0, r1.value.1);
    assert Shunt(tokens[1..], r1.value.0, r1.value.1) == Shunt(tokens[1..][1..], r2.value.0, r2.value.1);
    assert Shunt(tokens[1..][1..], r2.value.0, r2.value.1) == Shunt(rest, r3.value.0, r3.value.1);
  }

  /** The last two tokens, an operator and an operand, followed by the
      final drain. */
  lemma ClosingTwo(o: Token, z: Token, stack: seq<Token>, out: seq<Token>)
    requires o.kind == OperatorToken && o.value in Operators && IsOperand(z)
    requires Known(stack)
    ensures Known([o, z])
    ensures Step(o, stack, out).Success?
    ensures var next := Step(o, stack, out).value;
      Shunt([o, z], stack, out) == Drain(next.0, next.1 + [z])
  {
    var tokens := [o, z];
    assert Known(tokens) by {
      forall i | 0 <= i < 2
        ensures KnownToken(tokens[i])
      {
      }
    }
    assert tokens[1..] == [z] && [z][1..] == [];
    var next := Step(o, stack, out).value;
    assert Shunt(tokens, stack, out) == Shunt([z], next.0, next.1);
    var last := Step(z, next.0, next.1);
    assert last.Success? && last.value.0 == next.0 && last.value.1 == next.1 + [z];
    assert Shunt([z], next.0, next.1) == Shunt([], next.0, next.1 + [z]);
  }

  /** `2^3^2` becomes `2 3 2 ^ ^`: the power is right-associative. */
  lemma PowerGroupsRight()
    ensures Known([Num("2"), Op("^"), Num("3"), Op("^"), Num("2")])
    ensures ToRpn([Num("2"), Op("^"), Num("3"), Op("^"), Num("2")])
      == Success([Num("2"), Num("3"), Num("2"), Op("^"), Op("^")])
  {
    assert "^" in Operators && !Operators["^"].leftAssociative;
    RightAssociativeGroupsRight(Num("2"), Num("3"), Num("2"), Op("^"));
  }

  /** `2-3-2` becomes `2 3 - 2 -`: subtraction is left-associative. */
  lemma MinusGroupsLeft()
    ensures Known([Num("2"), Op("-"), Num("3"), Op("-"), Num("2")])
    ensures ToRpn([Num("2"), Op("-"), Num("3"), Op("-"), Num("2")])
      == Success([Num("2"), Num("3"), Op("-"), Num("2"), Op("-")])
  {
    assert "-" in Operators && Operators["-"].leftAssociative;
    LeftAssociativeGroupsLeft(Num("2"), Num("3"), Num("2"), Op("-"));
  }

  /** `2+3*4` becomes `2 3 4 * +`: the product binds tighter. */
  lemma ProductBindsTighter()
    ensures Known([Num("2"), Op("+"), Num("3"), Op("*"), Num("4")])
    ensures ToRpn([Num("2"), Op("+"), Num("3"), Op("*"), Num("4")])
      == Success([Num("2"), Num("3"), Num("4"), Op("*"), Op("+")])
  {
    assert "+" in Operators && "*" in Operators && Precedence(Op("*")) > Precedence(Op("+"));
    TighterOperatorFirst(Num("2"), Num("3"), Num("4"), Op("+"), Op("*"));
  }

  /** An operator on the stack that does not yield to the incoming one stays,
      and the incoming one is pushed above it. */
  lemma StaysBelow(top: Token, op: Token, out: seq<Token>)
    requires top.kind == OperatorToken && op.kind == OperatorToken
    requires top.value in Operators && op.value in Operators
    requires !OperatorYields(top, op)
    ensures Step(op, [top], out).Success?
    ensures Step(op, [top], out).value.0 == [top, op]
    ensures Step(op, [top], out).value.1 == out
  {
    assert Top([top]) == top;
    assert [top] + [op] == [top, op];
  }

  /** An operator on the stack that yields to the incoming one is moved to
      the output, and the incoming one takes its place. */
  lemma EqualPrecedencePops(top: Token, op: Token, out: seq<Token>)
    requires top.kind == OperatorToken && op.kind == OperatorToken
    requires top.value in Operators && op.value in Operators
    requires OperatorYields(top, op)
    ensures Step(op, [top], out).Success?
    ensures Step(op, [top], out).value.0 == [op]
    ensures Step(op, [top], out).value.1 == out + [top]
  {
    assert Pop([top]) == [] && Top([top]) == top;
    assert PopOperators([top], out, op) == PopOperators([], out + [top], op);
    assert [] + [op] == [op];
  }

  /** A function token on the stack is moved to the output by any incoming
      operator, whatever its precedence, and the operator takes its place. */
  lemma FunctionPoppedByOperator(f: Token, o: Token, out: seq<Token>)
    requires f.kind == FunctionToken && o.kind == OperatorToken && o.value in Operators
    ensures Step(o, [f], out).Success?
    ensures Step(o, [f], out).value.0 == [o]
    ensures Step(o, [f], out).value.1 == out + [f]
  {
    assert Pop([f]) == [] && Top([f]) == f;
    assert PopOperators([f], out, o) == PopOperators([], out + [f], o);
    assert [] + [o] == [o];
  }

  /** Draining a one-element stack with no '(' appends it to the output. */
  lemma DrainSingle(out: seq<Token>, first: Token)
    requires first.kind != OpenBToken
    ensures Drain([first], out).Success?
    ensures Drain([first], out).value == out + [first]
  {
    assert Pop([first]) == [] && Top([first]) == first;
    assert Drain([], out + [first]) == Success(out + [first]);
  }

  /** Draining a two-element stack with no '(' reverses it onto the output. */
  lemma DrainExample(out: seq<Token>, first: Token, second: Token)
    requires first.kind != OpenBToken && second.kind != OpenBToken
    ensures Drain([first, second], out).Success?
    ensures Drain([first, second], out).value == out + [second, first]
  {
    assert Pop([first, second]) == [first];
    assert Pop([first]) == [];
    assert Drain([], out + [second] + [first]) == Success(out + [second] + [first]);
    assert Drain([first], out + [second]) == Drain([], out + [second] + [first]);
    assert Drain([first, second], out) == Drain([first], out + [second]);
    assert out + [second] + [first] == out + [second, first];
  }

}
