/** Whole expressions through the pipeline. The number test is a parameter,
    so each case states what it must say about the strings involved. */
module WorkedCases {
  import opened Vocabulary
  import opened Helpers
  import opened ShuntingYard
  import opened SyntaxTrees
  import opened Lexer
  import opened Evaluator

  // ---------------------------------------------------------------------
  // `-(3)`: a '-' before a parenthesis is a lone operator

  lemma ScanNegatedParenthesis()
    ensures NextToken("-(3)", true) == Scan("-", "(3)", false)
  {
    assert LTrim("-(3)") == "-(3)";
    assert IsSpecial('(');
    assert UnaryStop("-(3)", 1) == 1;
  }

  lemma ScanOpenThree()
    ensures NextToken("(3)", false) == Scan("(", "3)", true)
  {
    assert LTrim("(3)") == "(3)";
  }

  lemma ScanThreeClose(allowNegative: bool)
    ensures NextToken("3)", allowNegative) == Scan("3", ")", false)
  {
    assert LTrim("3)") == "3)";
    assert FirstSpecial("3)", 0) == Some(1);
  }

  lemma ScanClose()
    ensures NextToken(")", false) == Scan(")", "", false)
  {
    var s := ")";
    assert s[0] == ')' && |s| == 1;
    assert LTrim(s) == s;
    assert IsSpecial(s[0]);
    var r := NextToken(s, false);
    assert r.token == s[..1] && r.rest == s[1..] && !r.allowNegative;
    assert s[..1] == s && s[1..] == "";
  }

  /** The '-' is scanned alone because a '(' follows it. */
  lemma NegatedParenthesisTokens()
    ensures Tokens("-(3)", true) == ["-", "(", "3", ")"]
  {
    ScanNegatedParenthesis();
    ScanOpenThree();
    ScanThreeClose(true);
    ScanClose();
    ScanThenTokens("-(3)", true, "-", "(3)", false);
    ScanThenTokens("(3)", false, "(", "3)", true);
    ScanThenTokens("3)", true, "3", ")", false);
    ScanThenTokens(")", false, ")", "", false);
    NoTokens(false);
    ConsFour(Tokens("-(3)", true), Tokens("(3)", false), Tokens("3)", true), Tokens(")", false), Tokens("", false),
      "-", "(", "3", ")");
  }

  lemma NoTokens(allowNegative: bool)
    ensures Tokens("", allowNegative) == []
  {
  }

  /** Four elements put in front of an empty list one by one. */
  lemma ConsFour(a0: seq<string>, a1: seq<string>, a2: seq<string>, a3: seq<string>, a4: seq<string>,
                 t0: string, t1: string, t2: string, t3: string)
    requires a0 == [t0] + a1 && a1 == [t1] + a2 && a2 == [t2] + a3 && a3 == [t3] + a4 && a4 == []
    ensures a0 == [t0, t1, t2, t3]
  {
  }

  /** A scan that yields a token puts it in front of the tokens of the rest. */
  lemma ScanThenTokens(source: string, allowNegative: bool, token: string, rest: string, next: bool)
    requires NextToken(source, allowNegative) == Scan(token, rest, next) && token != ""
    ensures Tokens(source, allowNegative) == [token] + Tokens(rest, next)
  {
  }

  lemma ClassifyStructural(isNumber: string -> bool)
    requires !isNumber("-") && !isNumber("(") && !isNumber(")")
    ensures GetTokenType("-", isNumber) == OperatorToken
    ensures GetTokenType("(", isNumber) == OpenBToken
    ensures GetTokenType(")", isNumber) == CloseBToken
  {
    LoneMinusIsOperator(isNumber);
    ClassifyParentheses(isNumber);
  }

  lemma ClassifyParentheses(isNumber: string -> bool)
    requires !isNumber("(") && !isNumber(")")
    ensures GetTokenType("(", isNumber) == OpenBToken
    ensures GetTokenType(")", isNumber) == CloseBToken
  {
    FunctionSpellings("(");
    VariableSpellings("(");
    FunctionSpellings(")");
    VariableSpellings(")");
  }

  lemma ClassifyNumber(s: string, isNumber: string -> bool)
    requires isNumber(s) && |s| > 0 && '0' <= s[0] <= '9'
    ensures GetTokenType(s, isNumber) == NumberToken
  {
    FunctionSpellings(s);
  }

  /** Classifying one more string that is neither a comma nor bad puts its
      token in front. */
  lemma ClassifyOne(t: string, k: TokenType, rest: seq<string>, isNumber: string -> bool)
    requires t != "," && k != BadToken && GetTokenType(t, isNumber) == k
    requires ClassifyAll(rest, isNumber).Success?
    ensures ClassifyAll([t] + rest, isNumber).Success?
    ensures ClassifyAll([t] + rest, isNumber).value == [Token(t, k)] + ClassifyAll(rest, isNumber).value
  {
    ClassifyCons(t, rest, isNumber);
  }

  /** Four strings, none a comma and none bad, classify one by one. */
  lemma ClassifyFour(a: string, b: string, c: string, d: string,
                     ka: TokenType, kb: TokenType, kc: TokenType, kd: TokenType,
                     isNumber: string -> bool)
    requires a != "," && ka != BadToken && GetTokenType(a, isNumber) == ka
    requires b != "," && kb != BadToken && GetTokenType(b, isNumber) == kb
    requires c != "," && kc != BadToken && GetTokenType(c, isNumber) == kc
    requires d != "," && kd != BadToken && GetTokenType(d, isNumber) == kd
    ensures ClassifyAll([a, b, c, d], isNumber).Success?
    ensures ClassifyAll([a, b, c, d], isNumber).value
      == [Token(a, ka), Token(b, kb), Token(c, kc), Token(d, kd)]
  {
    ClassifyOne(d, kd, [], isNumber);
    ClassifyOne(c, kc, [d], isNumber);
    assert [c] + [d] == [c, d];
    ClassifyOne(b, kb, [c, d], isNumber);
    assert [b] + [c, d] == [b, c, d];
    ClassifyOne(a, ka, [b, c, d], isNumber);
    assert [a] + [b, c, d] == [a, b, c, d];
  }

  lemma NegatedParenthesisClassified(isNumber: string -> bool)
    requires isNumber("3") && !isNumber("-") && !isNumber("(") && !isNumber(")")
    ensures ClassifyAll(Tokens("-(3)", true), isNumber).Success?
    ensures ClassifyAll(Tokens("-(3)", true), isNumber).value
      == [Op("-"), Token("(", OpenBToken), Num("3"), Token(")", CloseBToken)]
  {
    NegatedParenthesisTokens();
    ClassifyStructural(isNumber);
    ClassifyNumber("3", isNumber);
    ClassifyFour("-", "(", "3", ")", OperatorToken, OpenBToken, NumberToken, CloseBToken, isNumber);
  }

  /** Negating a parenthesized group is not supported: `-(3)` converts to
      `3 -`, which lacks an operand, so evaluation fails with an incomplete
      expression. */
  lemma NegatedParenthesisFails<V>(num: Numerics<V>, isNumber: string -> bool)
    requires isNumber("3") && !isNumber("-") && !isNumber("(") && !isNumber(")")
    ensures ExpressionValue(num, isNumber, "-(3)") == Failure(IncompleteExpression)
  {
    assert ToLower("-(3)") == "-(3)";
    NegatedParenthesisClassified(isNumber);
    NegatedParenthesisRpn();
    var rpn := RpnOf("-(3)", true, isNumber);
    assert rpn.Success? && rpn.value == [Num("3"), Op("-")];
    LoneOperatorIsIncomplete();
  }

  /** The conversion of `- ( 3 )`: the operator waits on the stack while the
      group is converted. */
  lemma NegatedParenthesisRpn()
    ensures Known([Op("-"), Token("(", OpenBToken), Num("3"), Token(")", CloseBToken)])
    ensures ToRpn([Op("-"), Token("(", OpenBToken), Num("3"), Token(")", CloseBToken)]) == Success([Num("3"), Op("-")])
  {
    assert "-" in Operators;
    OperatorBeforeGroup(Op("-"), Token("(", OpenBToken), Num("3"), Token(")", CloseBToken));
  }

  /** An operator followed by a parenthesized operand: the group is
      converted while the operator waits, and the operator comes last. */
  lemma OperatorBeforeGroup(op: Token, open: Token, x: Token, close: Token)
    requires op.kind == OperatorToken && op.value in Operators
    requires open.kind == OpenBToken && IsOperand(x) && close.kind == CloseBToken
    ensures Known([op, open, x, close])
    ensures ToRpn([op, open, x, close]) == Success([x, op])
  {
    var tokens := [op, open, x, close];
    assert Known(tokens);
    GroupSteps(op, open, x, close);
    ShuntUnfolds(tokens, [], []);
    assert tokens[1..] == [open, x, close];
    ShuntUnfolds([open, x, close], [op], []);
    assert [open, x, close][1..] == [x, close];
    ShuntUnfolds([x, close], [op, open], []);
    assert [x, close][1..] == [close];
    ShuntUnfolds([close], [op, open], [x]);
    assert Shunt([close], [op, open], [x]) == Drain([op], [x]);
    DrainSingle([x], op);
    assert [x] + [op] == [x, op];
    assert ToRpn(tokens).value == [x, op];
  }

  /** The four steps of `op ( x )`, one by one. */
  lemma GroupSteps(op: Token, open: Token, x: Token, close: Token)
    requires op.kind == OperatorToken && op.value in Operators
    requires open.kind == OpenBToken && IsOperand(x) && close.kind == CloseBToken
    ensures Step(op, [], []).Success? && Step(op, [], []).value.0 == [op] && Step(op, [], []).value.1 == []
    ensures Step(open, [op], []).Success? && Step(open, [op], []).value.0 == [op, open] && Step(open, [op], []).value.1 == []
    ensures Step(x, [op, open], []).Success? && Step(x, [op, open], []).value.0 == [op, open] && Step(x, [op, open], []).value.1 == [x]
    ensures Step(close, [op, open], [x]).Success? && Step(close, [op, open], [x]).value.0 == [op] && Step(close, [op, open], [x]).value.1 == [x]
  {
    assert [] + [op] == [op];
    assert [op] + [open] == [op, open];
    assert [] + [x] == [x];
    assert Pop([op, open]) == [op];
  }

  // ---------------------------------------------------------------------
  // Function tokens in the conversion

  /** `f ( x ) o y` becomes `x f y o`: the operator after the call moves the
      function to the output before it is pushed. */
  lemma FunctionBeforeOperator(f: Token, open: Token, x: Token, close: Token, o: Token, y: Token)
    requires f.kind == FunctionToken && open.kind == OpenBToken && IsOperand(x) && close.kind == CloseBToken
    requires o.kind == OperatorToken && o.value in Operators && IsOperand(y)
    ensures Known([f, open, x, close, o, y])
    ensures ToRpn([f, open, x, close, o, y]) == Success([x, f, y, o])
  {
    CallThenRest(f, open, x, close, [o, y]);
    assert [f, open, x, close] + [o, y] == [f, open, x, close, o, y];
    FunctionPoppedByOperator(f, o, [x]);
    ClosingTwo(o, y, [f], [x]);
    DrainSingle([x, f, y], o);
    assert [x] + [f] + [y] == [x, f, y];
    assert [x, f, y] + [o] == [x, f, y, o];
  }

  /** A call `f ( x )` at the start of the input leaves `f` on the stack and
      `x` in the output. */
  lemma CallThenRest(f: Token, open: Token, x: Token, close: Token, rest: seq<Token>)
    requires f.kind == FunctionToken && open.kind == OpenBToken && IsOperand(x) && close.kind == CloseBToken
    requires Known(rest)
    ensures Known([f, open, x, close] + rest)
    ensures Shunt([f, open, x, close] + rest, [], []) == Shunt(rest, [f], [x])
  {
    var tokens := [f, open, x, close] + rest;
    assert Known(tokens) by {
      forall i | 0 <= i < |tokens|
        ensures KnownToken(tokens[i])
      {
        if i >= 4 {
          assert tokens[i] == rest[i - 4];
        }
      }
    }
    CallSteps(f, open, x, x, close);
    assert tokens[0] == f && tokens[1..][0] == open && tokens[1..][1..][0] == x;
    assert tokens[1..][1..][1..][0] == close && tokens[1..][1..][1..][1..] == rest;
    ShuntUnfolds(tokens, [], []);
    ShuntUnfolds(tokens[1..], [f], []);
    ShuntUnfolds(tokens[1..][1..], [f, open], []);
    ShuntUnfolds(tokens[1..][1..][1..], [f, open], [x]);
  }

  /** The steps of a call `f ( a b )` whose argument list has lost its
      comma, one by one. */
  lemma CallSteps(f: Token, open: Token, a: Token, b: Token, close: Token)
    requires f.kind == FunctionToken && open.kind == OpenBToken && close.kind == CloseBToken
    requires IsOperand(a) && IsOperand(b)
    ensures Step(f, [], []).Success? && Step(f, [], []).value.0 == [f] && Step(f, [], []).value.1 == []
    ensures Step(open, [f], []).Success? && Step(open, [f], []).value.0 == [f, open] && Step(open, [f], []).value.1 == []
    ensures Step(a, [f, open], []).Success? && Step(a, [f, open], []).value.0 == [f, open] && Step(a, [f, open], []).value.1 == [a]
    ensures Step(b, [f, open], [a]).Success? && Step(b, [f, open], [a]).value.0 == [f, open] && Step(b, [f, open], [a]).value.1 == [a, b]
    ensures Step(close, [f, open], [a]).Success? && Step(close, [f, open], [a]).value.0 == [f] && Step(close, [f, open], [a]).value.1 == [a]
    ensures Step(close, [f, open], [a, b]).Success? && Step(close, [f, open], [a, b]).value.0 == [f] && Step(close, [f, open], [a, b]).value.1 == [a, b]
  {
    assert [] + [f] == [f];
    assert [f] + [open] == [f, open];
    assert [] + [a] == [a];
    assert [a] + [b] == [a, b];
    assert Pop([f, open]) == [f];
  }

  /** `f ( a , b )` becomes `a b f`: the two arguments, then the function. */
  lemma CallOfTwo(f: Token, open: Token, a: Token, b: Token, close: Token)
    requires f.kind == FunctionToken && open.kind == OpenBToken && close.kind == CloseBToken
    requires IsOperand(a) && IsOperand(b)
    ensures Known([f, open, a, b, close])
    ensures ToRpn([f, open, a, b, close]) == Success([a, b, f])
  {
    var tokens := [f, open, a, b, close];
    assert Known(tokens);
    CallSteps(f, open, a, b, close);
    ShuntUnfolds(tokens, [], []);
    assert tokens[1..] == [open, a, b, close];
    ShuntUnfolds([open, a, b, close], [f], []);
    assert [open, a, b, close][1..] == [a, b, close];
    ShuntUnfolds([a, b, close], [f, open], []);
    assert [a, b, close][1..] == [b, close];
    ShuntUnfolds([b, close], [f, open], [a]);
    assert [b, close][1..] == [close];
    ShuntUnfolds([close], [f, open], [a, b]);
    assert Shunt([close], [f, open], [a, b]) == Drain([f], [a, b]);
    DrainSingle([a, b], f);
    assert [a, b] + [f] == [a, b, f];
  }

  // ---------------------------------------------------------------------
  // `max(2,3)`: a two-argument call through the whole pipeline

  lemma ScanMax()
    ensures NextToken("max(2,3)", true) == Scan("max", "(2,3)", false)
  {
    assert LTrim("max(2,3)") == "max(2,3)";
    assert FirstSpecial("max(2,3)", 0) == Some(3);
  }

  lemma ScanOpenTwo()
    ensures NextToken("(2,3)", false) == Scan("(", "2,3)", true)
  {
    assert LTrim("(2,3)") == "(2,3)";
  }

  lemma ScanTwoComma()
    ensures NextToken("2,3)", true) == Scan("2", ",3)", false)
  {
    assert LTrim("2,3)") == "2,3)";
    assert FirstSpecial("2,3)", 0) == Some(1);
  }

  /** A comma is a token of its own and leaves the flag as it was. */
  lemma ScanComma()
    ensures NextToken(",3)", false) == Scan(",", "3)", false)
  {
    assert LTrim(",3)") == ",3)";
  }

  /** The comma is scanned as a token of its own. */
  lemma CallTokens()
    ensures Tokens("max(2,3)", true) == ["max", "(", "2", ",", "3", ")"]
  {
    ScanMax();
    ScanOpenTwo();
    ScanTwoComma();
    ScanComma();
    ScanThreeClose(false);
    ScanClose();
    ScanThenTokens("max(2,3)", true, "max", "(2,3)", false);
    ScanThenTokens("(2,3)", false, "(", "2,3)", true);
    ScanThenTokens("2,3)", true, "2", ",3)", false);
    ScanThenTokens(",3)", false, ",", "3)", false);
    ScanThenTokens("3)", false, "3", ")", false);
    ScanThenTokens(")", false, ")", "", false);
    NoTokens(false);
    ConsSix(Tokens("max(2,3)", true), Tokens("(2,3)", false), Tokens("2,3)", true), Tokens(",3)", false),
      Tokens("3)", false), Tokens(")", false), Tokens("", false),
      "max", "(", "2", ",", "3", ")");
  }

  /** Six elements put in front of an empty list one by one. */
  lemma ConsSix(a0: seq<string>, a1: seq<string>, a2: seq<string>, a3: seq<string>, a4: seq<string>,
                a5: seq<string>, a6: seq<string>,
                t0: string, t1: string, t2: string, t3: string, t4: string, t5: string)
    requires a0 == [t0] + a1 && a1 == [t1] + a2 && a2 == [t2] + a3 && a3 == [t3] + a4
    requires a4 == [t4] + a5 && a5 == [t5] + a6 && a6 == []
    ensures a0 == [t0, t1, t2, t3, t4, t5]
  {
  }

  /** How each string of the call classifies. */
  lemma CallStrings(isNumber: string -> bool)
    requires isNumber("2") && isNumber("3") && !isNumber("(") && !isNumber(")")
    ensures GetTokenType("max", isNumber) == FunctionToken
    ensures GetTokenType("(", isNumber) == OpenBToken
    ensures GetTokenType(")", isNumber) == CloseBToken
    ensures GetTokenType("2", isNumber) == NumberToken
    ensures GetTokenType("3", isNumber) == NumberToken
  {
    ClassifyParentheses(isNumber);
    ClassifyNumber("2", isNumber);
    ClassifyNumber("3", isNumber);
    assert IsFunction("max");
    ClassificationPriority("max", isNumber);
  }

  /** The comma is dropped; the other strings classify in order. */
  lemma CallClassified(isNumber: string -> bool)
    requires isNumber("2") && isNumber("3") && !isNumber("(") && !isNumber(")")
    ensures ClassifyAll(["max", "(", "2", ",", "3", ")"], isNumber).Success?
    ensures ClassifyAll(["max", "(", "2", ",", "3", ")"], isNumber).value
      == [Token("max", FunctionToken), Token("(", OpenBToken), Num("2"), Num("3"), Token(")", CloseBToken)]
  {
    CallStrings(isNumber);
    CallTailClassified(isNumber);
    ClassifyOne("2", NumberToken, [",", "3", ")"], isNumber);
    assert ["2"] + [",", "3", ")"] == ["2", ",", "3", ")"];
    ClassifyOne("(", OpenBToken, ["2", ",", "3", ")"], isNumber);
    assert ["("] + ["2", ",", "3", ")"] == ["(", "2", ",", "3", ")"];
    ClassifyOne("max", FunctionToken, ["(", "2", ",", "3", ")"], isNumber);
    assert ["max"] + ["(", "2", ",", "3", ")"] == ["max", "(", "2", ",", "3", ")"];
  }

  lemma CallTailClassified(isNumber: string -> bool)
    requires GetTokenType("3", isNumber) == NumberToken && GetTokenType(")", isNumber) == CloseBToken
    ensures ClassifyAll([",", "3", ")"], isNumber).Success?
    ensures ClassifyAll([",", "3", ")"], isNumber).value == [Num("3"), Token(")", CloseBToken)]
  {
    ClassifyOne(")", CloseBToken, [], isNumber);
    ClassifyOne("3", NumberToken, [")"], isNumber);
    assert ["3"] + [")"] == ["3", ")"];
    ClassifyCons(",", ["3", ")"], isNumber);
    assert [","] + ["3", ")"] == [",", "3", ")"];
  }

  /** `max(2,3)` converts to `2 3 max`. */
  lemma CallRpn(isNumber: string -> bool)
    requires isNumber("2") && isNumber("3") && !isNumber("(") && !isNumber(")")
    ensures RpnOf("max(2,3)", true, isNumber) == Success([Num("2"), Num("3"), Token("max", FunctionToken)])
  {
    CallTokens();
    CallClassified(isNumber);
    CallOfTwo(Token("max", FunctionToken), Token("(", OpenBToken), Num("2"), Num("3"), Token(")", CloseBToken));
  }

  /** `2 3 max` builds the node `max` over `2` and `3`. */
  lemma CallTree()
    ensures BuildTree([Num("2"), Num("3"), Token("max", FunctionToken)])
      == Success(Node(Token("max", FunctionToken), Some(Node(Num("2"), None, None)), Some(Node(Num("3"), None, None))))
  {
    var f := Token("max", FunctionToken);
    var n := Node(f, Some(Node(Num("2"), None, None)), Some(Node(Num("3"), None, None)));
    assert TakesTwo("max");
    assert WellShaped(n);
    assert Postfix(n) == [Num("2"), Num("3"), f];
    RebuildFromPostfix(n);
  }

  /** `max(2,3)` evaluates to `max` applied to 2, then 3. */
  lemma MaxOfTwoNumbers<V>(num: Numerics<V>, isNumber: string -> bool)
    requires isNumber("2") && isNumber("3") && !isNumber("(") && !isNumber(")")
    ensures ExpressionValue(num, isNumber, "max(2,3)") == Success(ApplyBinary(num, Max, num.parse("2"), num.parse("3")))
  {
    var n := Node(Token("max", FunctionToken), Some(Node(Num("2"), None, None)), Some(Node(Num("3"), None, None)));
    assert ToLower("max(2,3)") == "max(2,3)";
    CallRpn(isNumber);
    CallTree();
    CallValue(num, n);
  }

  lemma CallValue<V>(num: Numerics<V>, n: Node)
    requires n == Node(Token("max", FunctionToken), Some(Node(Num("2"), None, None)), Some(Node(Num("3"), None, None)))
    ensures Evaluable(n)
    ensures EvalSyntaxTree(num, n) == ApplyBinary(num, Max, num.parse("2"), num.parse("3"))
  {
    assert Unsigned("max") == "max" && "max" in BinaryFunctions;
    assert Unsigned("2") == "2" && Unsigned("3") == "3";
    FunctionOperands(num, n);
  }
  // ---------------------------------------------------------------------
  // Unbalanced parentheses

  /** `(1+2`: the group is never closed, so the final drain meets a '('. */
  lemma UnclosedGroupIsMismatched()
    ensures ToRpn([Token("(", OpenBToken), Num("1"), Op("+"), Num("2")]) == Failure(MismatchedParenthesis)
  {
    var tokens := [Token("(", OpenBToken), Num("1"), Op("+"), Num("2")];
    assert Known(tokens) by {
      assert "+" in Operators;
    }
    assert tokens[1..][1..] == tokens[2..] && tokens[2..][1..] == tokens[3..] && tokens[3..][1..] == [];
    assert !BalancedFrom(tokens[3..], 1);
    assert !Balanced(tokens);
    ConvertProperties(tokens);
  }

  /** `1+2)`: the ')' finds no '(' on the stack. */
  lemma StrayCloseIsMismatched()
    ensures ToRpn([Num("1"), Op("+"), Num("2"), Token(")", CloseBToken)]) == Failure(MismatchedParenthesis)
  {
    var tokens := [Num("1"), Op("+"), Num("2"), Token(")", CloseBToken)];
    assert Known(tokens) by {
      assert "+" in Operators;
    }
    assert tokens[1..][1..] == tokens[2..] && tokens[2..][1..] == tokens[3..];
    assert !BalancedFrom(tokens[3..], 0);
    assert !Balanced(tokens);
    ConvertProperties(tokens);
  }
}
