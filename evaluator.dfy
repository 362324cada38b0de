/** Evaluation of a syntax tree and the whole pipeline from an expression
    string to a value. Values are of an abstract type `V`; the arithmetic,
    the math functions, strtod and the constants come in a `Numerics<V>`. */
module Evaluator {
  import opened Vocabulary
  import opened Helpers
  import opened ShuntingYard
  import opened SyntaxTrees
  import Lexer

  /** A token text longer than one character that starts with '-' stands
      for the negation of the rest. A lone "-" is not negated. */
  predicate IsNegated(value: string)
  {
    |value| > 1 && value[0] == '-'
  }

  function Unsigned(value: string): (r: string)
    ensures IsNegated(value) ==> "-" + r == value && |r| > 0
    ensures !IsNegated(value) ==> r == value
  {
    if IsNegated(value) then value[1..] else value
  }

  /** Whether a node's own token can be evaluated: a number, a known
      constant, a known operator or a known function, after the sign. */
  predicate Applicable(t: Token)
  {
    var v := Unsigned(t.value);
    match t.kind
    case NumberToken => true
    case VariableToken => v in VariableNames
    case OperatorToken => v in Operators
    case FunctionToken => v in BinaryFunctions || v in UnaryFunctions
    case _ => false
  }

  /** How many child values a token's evaluation uses: two for operators
      and for a function whose unsigned name is two-argument, one for other
      functions, none for numbers and constants. */
  function Needs(t: Token): nat
  {
    if t.kind == OperatorToken then 2
    else if t.kind == FunctionToken then (if IsBinaryFunction(Unsigned(t.value)) then 2 else 1)
    else 0
  }

  /** The value of one token given its children's values in left-to-right
      order: strtod of the unsigned text, the constant, the operator, or the
      function; then negated when the text carried a sign. */
  function Apply<V>(num: Numerics<V>, t: Token, args: seq<V>): V
    requires Applicable(t) && |args| == Needs(t)
  {
    var v := Unsigned(t.value);
    var output :=
      if t.kind == NumberToken then num.parse(v)
      else if t.kind == VariableToken then Variables(num)[v]
      else if t.kind == OperatorToken then ApplyOperator(num, Operators[v].mathFunction, args[0], args[1])
      else if IsBinaryFunction(v) then ApplyBinary(num, BinaryFunctions[v], args[0], args[1])
      else ApplyUnary(num, UnaryFunctions[v], args[0]);
    if IsNegated(t.value) then num.negate(output) else output
  }

  /** A tree evaluation can walk: every node applicable, with the children
      its token uses present. */
  predicate Evaluable(n: Node)
    decreases n
  {
    && Applicable(n.leaf)
    && (Needs(n.leaf) >= 1 ==> n.left.Some? && Evaluable(n.left.value))
    && (Needs(n.leaf) == 2 ==> n.right.Some? && Evaluable(n.right.value))
  }

  /** The value of a tree: its token applied to the values of the children
      it uses. */
  function EvalSyntaxTree<V>(num: Numerics<V>, n: Node): V
    requires Evaluable(n)
    decreases n, 1
  {
    Apply(num, n.leaf, Arguments(num, n))
  }

  /** The values of the children a node's evaluation uses, left first. */
  function Arguments<V>(num: Numerics<V>, n: Node): (r: seq<V>)
    requires Evaluable(n)
    ensures |r| == Needs(n.leaf)
    ensures Needs(n.leaf) >= 1 ==> r[0] == EvalSyntaxTree(num, n.left.value)
    ensures Needs(n.leaf) == 2 ==> r[1] == EvalSyntaxTree(num, n.right.value)
    decreases n, 0
  {
    (if Needs(n.leaf) >= 1 then [EvalSyntaxTree(num, n.left.value)] else [])
    + (if Needs(n.leaf) == 2 then [EvalSyntaxTree(num, n.right.value)] else [])
  }

  // ---------------------------------------------------------------------
  // Properties of the evaluation rules

  /** A sign is stripped and applied at its own node only: the value of a
      negated node is the negation of the same node without the sign, whose
      children are evaluated with their own signs. */
  lemma NegationIsLocal<V>(num: Numerics<V>, n: Node)
    requires Evaluable(n) && IsNegated(n.leaf.value) && !IsNegated(Unsigned(n.leaf.value))
    ensures var bare := n.(leaf := n.leaf.(value := Unsigned(n.leaf.value)));
      && Evaluable(bare)
      && EvalSyntaxTree(num, n) == num.negate(EvalSyntaxTree(num, bare))
  {
  }

  /** An operator applies its function to the left value, then the right,
      and negates the result when its text carries a sign. */
  lemma OperandOrder<V>(num: Numerics<V>, n: Node)
    requires Evaluable(n) && n.leaf.kind == OperatorToken
    ensures var x := ApplyOperator(num, Operators[Unsigned(n.leaf.value)].mathFunction,
      EvalSyntaxTree(num, n.left.value), EvalSyntaxTree(num, n.right.value));
      EvalSyntaxTree(num, n) == if IsNegated(n.leaf.value) then num.negate(x) else x
  {
  }

  /** A two-argument function applies to the left value, then the right; a
      one-argument function applies to the left value alone. Either result
      is negated when the name carries a sign. */
  lemma FunctionOperands<V>(num: Numerics<V>, n: Node)
    requires Evaluable(n) && n.leaf.kind == FunctionToken
    ensures var v := Unsigned(n.leaf.value);
      var x :=
        if v in BinaryFunctions
        then ApplyBinary(num, BinaryFunctions[v], EvalSyntaxTree(num, n.left.value), EvalSyntaxTree(num, n.right.value))
        else ApplyUnary(num, UnaryFunctions[v], EvalSyntaxTree(num, n.left.value));
      EvalSyntaxTree(num, n) == if IsNegated(n.leaf.value) then num.negate(x) else x
  {
  }

  /** `max` yields one of its arguments, or its negation when written `-max`. */
  lemma MaxYieldsAnArgument<V>(num: Numerics<V>, n: Node)
    requires Evaluable(n) && n.leaf.kind == FunctionToken && Unsigned(n.leaf.value) == "max"
    ensures var l, r := EvalSyntaxTree(num, n.left.value), EvalSyntaxTree(num, n.right.value);
      if IsNegated(n.leaf.value) then EvalSyntaxTree(num, n) in {num.negate(l), num.negate(r)}
      else EvalSyntaxTree(num, n) in {l, r}
  {
  }

  /** A one-argument function looks at its left child only. */
  lemma UnaryIgnoresRight<V>(num: Numerics<V>, n: Node, other: Option<Node>)
    requires Evaluable(n) && n.leaf.kind == FunctionToken && Unsigned(n.leaf.value) in UnaryFunctions
    ensures Evaluable(n.(right := other))
    ensures EvalSyntaxTree(num, n.(right := other)) == EvalSyntaxTree(num, n)
  {
  }

  /** The constants and their negations. */
  lemma ConstantValues<V>(num: Numerics<V>)
    ensures EvalSyntaxTree(num, Node(Token("pi", VariableToken), None, None)) == num.pi
    ensures EvalSyntaxTree(num, Node(Token("-pi", VariableToken), None, None)) == num.negate(num.pi)
    ensures EvalSyntaxTree(num, Node(Token("e", VariableToken), None, None)) == num.e
    ensures EvalSyntaxTree(num, Node(Token("rc", VariableToken), None, None)) == num.fromInt(1729)
  {
    assert Unsigned("-pi") == "pi";
  }

  // ---------------------------------------------------------------------
  // Postfix evaluation with a value stack, the reference for the tree walk

  /** Runs the postfix tokens on a stack of values: each evaluable token
      replaces the values it uses by its own value; other tokens are passed
      over. */
  function RunRpn<V>(num: Numerics<V>, rpn: seq<Token>, vals: seq<V>): Option<seq<V>>
    decreases |rpn|
  {
    if rpn == [] then Some(vals)
    else
      var t := rpn[0];
      if !IsRpnItem(t) then RunRpn(num, rpn[1..], vals)
      else if !Applicable(t) || |vals| < Needs(t) then None
      else RunRpn(num, rpn[1..], vals[..|vals| - Needs(t)] + [Apply(num, t, vals[|vals| - Needs(t)..])])
  }

  function EvalRpn<V>(num: Numerics<V>, rpn: seq<Token>): Option<V>
  {
    match RunRpn(num, rpn, [])
    case None => None
    case Some(vals) => if |vals| == 1 then Some(vals[0]) else None
  }

  /** For an evaluable token of the postfix output, the evaluation uses as
      many children as the tree builder gives it. */
  lemma NeedsIsArity(t: Token)
    requires Applicable(t) && IsRpnItem(t)
    ensures Needs(t) == Arity(t)
  {
    if t.kind == FunctionToken {
      var v := Unsigned(t.value);
      if IsNegated(t.value) {
        assert t.value[1..] == v;
      }
      assert v in {"max", "sin", "cos"};
    }
  }

  /** Running the postfix tokens of a well-shaped evaluable tree pushes the
      tree's value. */
  lemma {:induction false} RunPostfix<V>(num: Numerics<V>, n: Node, rest: seq<Token>, vals: seq<V>)
    requires WellShaped(n) && Evaluable(n)
    ensures RunRpn(num, Postfix(n) + rest, vals) == RunRpn(num, rest, vals + [EvalSyntaxTree(num, n)])
    decreases n, 1
  {
    NeedsIsArity(n.leaf);
    if Needs(n.leaf) == 2 {
      RunPostfixTwo(num, n, rest, vals);
    } else if Needs(n.leaf) == 1 {
      RunPostfixOne(num, n, rest, vals);
    } else {
      assert Postfix(n) + rest == [n.leaf] + rest;
      assert vals + Arguments(num, n) == vals;
      RunNode(num, n, rest, vals);
    }
  }

  lemma {:induction false} RunPostfixTwo<V>(num: Numerics<V>, n: Node, rest: seq<Token>, vals: seq<V>)
    requires WellShaped(n) && Evaluable(n) && Needs(n.leaf) == 2 && Arity(n.leaf) == 2
    ensures RunRpn(num, Postfix(n) + rest, vals) == RunRpn(num, rest, vals + [EvalSyntaxTree(num, n)])
    decreases n, 0
  {
    var tail := [n.leaf] + rest;
    var l, r := n.left.value, n.right.value;
    PostfixBinary(n, rest, []);
    RunPostfix(num, l, Postfix(r) + tail, vals);
    RunPostfix(num, r, tail, vals + [EvalSyntaxTree(num, l)]);
    ArgumentsTwo(num, n, vals);
    RunNode(num, n, rest, vals);
  }

  lemma {:induction false} RunPostfixOne<V>(num: Numerics<V>, n: Node, rest: seq<Token>, vals: seq<V>)
    requires WellShaped(n) && Evaluable(n) && Needs(n.leaf) == 1 && Arity(n.leaf) == 1
    ensures RunRpn(num, Postfix(n) + rest, vals) == RunRpn(num, rest, vals + [EvalSyntaxTree(num, n)])
    decreases n, 0
  {
    var tail := [n.leaf] + rest;
    var l := n.left.value;
    PostfixUnary(n, rest, []);
    RunPostfix(num, l, tail, vals);
    ArgumentsOne(num, n, vals);
    RunNode(num, n, rest, vals);
  }

  lemma ArgumentsTwo<V>(num: Numerics<V>, n: Node, vals: seq<V>)
    requires Evaluable(n) && Needs(n.leaf) == 2
    ensures vals + [EvalSyntaxTree(num, n.left.value)] + [EvalSyntaxTree(num, n.right.value)] == vals + Arguments(num, n)
  {
  }

  lemma ArgumentsOne<V>(num: Numerics<V>, n: Node, vals: seq<V>)
    requires Evaluable(n) && Needs(n.leaf) == 1
    ensures vals + [EvalSyntaxTree(num, n.left.value)] == vals + Arguments(num, n)
  {
  }

  /** A node's own token, run over its children's values, pushes the node's
      value. */
  lemma RunNode<V>(num: Numerics<V>, n: Node, rest: seq<Token>, vals: seq<V>)
    requires WellShaped(n) && Evaluable(n)
    ensures RunRpn(num, [n.leaf] + rest, vals + Arguments(num, n)) == RunRpn(num, rest, vals + [EvalSyntaxTree(num, n)])
  {
    assert IsRpnItem(n.leaf);
    RunToken(num, n.leaf, rest, vals, Arguments(num, n));
  }

  /** One evaluable token replaces the values it uses by its own value. */
  lemma RunToken<V>(num: Numerics<V>, t: Token, rest: seq<Token>, vals: seq<V>, args: seq<V>)
    requires IsRpnItem(t) && Applicable(t) && |args| == Needs(t)
    ensures RunRpn(num, [t] + rest, vals + args) == RunRpn(num, rest, vals + [Apply(num, t, args)])
  {
    var stacked := vals + args;
    assert ([t] + rest)[0] == t && ([t] + rest)[1..] == rest;
    assert stacked[..|stacked| - Needs(t)] == vals;
    assert stacked[|stacked| - Needs(t)..] == args;
  }

  /** The tree walk agrees with postfix evaluation of the tree's tokens. */
  lemma TreeMatchesPostfix<V>(num: Numerics<V>, n: Node)
    requires WellShaped(n) && Evaluable(n)
    ensures EvalRpn(num, Postfix(n)) == Some(EvalSyntaxTree(num, n))
  {
    RunPostfix(num, n, [], []);
    assert Postfix(n) + [] == Postfix(n);
    assert [] + [EvalSyntaxTree(num, n)] == [EvalSyntaxTree(num, n)];
  }

  // ---------------------------------------------------------------------
  // The pipeline

  /** The value of an expression: lower-case it, tokenize and convert it to
      postfix order with a fresh tokenizer (whose flag starts raised), build
      the tree and walk it. Each stage may fail with its error. */
  function ExpressionValue<V>(num: Numerics<V>, isNumber: string -> bool, expression: string): Result<V>
  {
    match Lexer.RpnOf(ToLower(expression), true, isNumber)
    case Failure(e) => Failure(e)
    case Success(rpn) =>
      match BuildTree(rpn)
      case Failure(e) => Failure(e)
      case Success(tree) =>
        BuiltTreesEvaluable(ToLower(expression), true, isNumber);
        Success(EvalSyntaxTree(num, tree))
  }

  method EvalExpression<V>(num: Numerics<V>, isNumber: string -> bool, expression: string) returns (r: Result<V>)
    ensures r == ExpressionValue(num, isNumber, expression)
  {
    var tokenizer := new Lexer.Tokenizer(ToLower(expression), isNumber);
    var rpn := tokenizer.BuildRpn();
    if rpn.Failure? {
      return Failure(rpn.error);
    }
    var ast := BuildSyntaxTree(rpn.value);
    if ast.Failure? {
      return Failure(ast.error);
    }
    BuiltTreesEvaluable(ToLower(expression), true, isNumber);
    return Success(EvalSyntaxTree(num, ast.value));
  }

  /** The evaluator does not depend on letter case. */
  lemma CaseInsensitive<V>(num: Numerics<V>, isNumber: string -> bool, expression: string)
    ensures ExpressionValue(num, isNumber, ToLower(expression)) == ExpressionValue(num, isNumber, expression)
  {
    ToLowerIdempotent(expression);
  }

  /** The classifier only hands on tokens evaluation can handle. */
  lemma ClassifiedIsApplicable(t: Token, isNumber: string -> bool)
    requires Lexer.ClassifiedToken(t, isNumber) && IsRpnItem(t)
    ensures Applicable(t)
  {
    Lexer.ClassificationPriority(t.value, isNumber);
    var v := t.value;
    if t.kind == VariableToken {
      VariableSpellings(v);
      if IsNegated(v) {
        assert v in {"-pi", "-e", "-rc"};
      }
    } else if t.kind == FunctionToken {
      FunctionSpellings(v);
      if IsNegated(v) {
        assert v in {"-sin", "-cos", "-max"};
      }
    }
  }

  /** A well-shaped tree whose tokens are all applicable is evaluable. */
  lemma {:induction false} WellShapedEvaluable(n: Node)
    requires WellShaped(n)
    requires forall i :: 0 <= i < |Postfix(n)| ==> Applicable(Postfix(n)[i])
    ensures Evaluable(n)
    decreases n
  {
    PostfixApplicable(n);
    NeedsIsArity(n.leaf);
    if n.left.Some? {
      WellShapedEvaluable(n.left.value);
    }
    if n.right.Some? {
      WellShapedEvaluable(n.right.value);
    }
  }

  /** Every token of a tree's postfix form applies, so every token of each
      child's does, and so does the node's own. */
  lemma PostfixApplicable(n: Node)
    requires forall i :: 0 <= i < |Postfix(n)| ==> Applicable(Postfix(n)[i])
    ensures Applicable(n.leaf)
    ensures n.left.Some? ==>
      forall i :: 0 <= i < |Postfix(n.left.value)| ==> Applicable(Postfix(n.left.value)[i])
    ensures n.right.Some? ==>
      forall i :: 0 <= i < |Postfix(n.right.value)| ==> Applicable(Postfix(n.right.value)[i])
  {
    var p := Postfix(n);
    var l := if n.left.Some? then Postfix(n.left.value) else [];
    var r := if n.right.Some? then Postfix(n.right.value) else [];
    assert p == l + r + [n.leaf];
    EveryPart(Applicable, l, r, n.leaf);
  }

  lemma EveryPart(ok: Token -> bool, l: seq<Token>, r: seq<Token>, last: Token)
    requires forall i :: 0 <= i < |l + r + [last]| ==> ok((l + r + [last])[i])
    ensures ok(last)
    ensures forall i :: 0 <= i < |l| ==> ok(l[i])
    ensures forall i :: 0 <= i < |r| ==> ok(r[i])
  {
    var p := l + r + [last];
    assert p[|p| - 1] == last;
    assert forall i :: 0 <= i < |l| ==> l[i] == p[i];
    assert forall i :: 0 <= i < |r| ==> r[i] == p[|l| + i];
  }

  /** Every token of a successful conversion came from the classified input. */
  lemma RpnTokensClassified(source: string, allowNegative: bool, isNumber: string -> bool)
    requires Lexer.RpnOf(source, allowNegative, isNumber).Success?
    ensures var rpn := Lexer.RpnOf(source, allowNegative, isNumber).value;
      forall i :: 0 <= i < |rpn| ==> IsRpnItem(rpn[i]) && Lexer.ClassifiedToken(rpn[i], isNumber)
  {
    var ts := Lexer.Tokens(source, allowNegative);
    Lexer.ClassifyAllMeaning(ts, isNumber);
    var tokens := Lexer.ClassifyAll(ts, isNumber).value;
    Lexer.OperatorTokensKnown(tokens, isNumber);
    ConvertProperties(tokens);
    var rpn := ToRpn(tokens).value;
    forall i | 0 <= i < |rpn|
      ensures IsRpnItem(rpn[i]) && Lexer.ClassifiedToken(rpn[i], isNumber)
    {
      assert rpn[i] in multiset(rpn);
      assert rpn[i] in Filter(IsRpnItem, tokens);
      FilterMember(IsRpnItem, tokens, rpn[i]);
    }
  }

  lemma {:induction false} FilterMember(p: Token -> bool, ts: seq<Token>, t: Token)
    requires t in Filter(p, ts)
    ensures exists i :: 0 <= i < |ts| && ts[i] == t
    decreases |ts|
  {
    FilterCons(p, ts);
    FilterSingle(p, ts[0]);
    if t != ts[0] {
      FilterMember(p, ts[1..], t);
      var i :| 0 <= i < |ts[1..]| && ts[1..][i] == t;
      assert ts[i + 1] == t;
    }
  }

  /** Every tree the pipeline builds can be evaluated: the evaluation step
      never meets an unknown name or a missing child. */
  lemma BuiltTreesEvaluable(source: string, allowNegative: bool, isNumber: string -> bool)
    ensures Lexer.RpnOf(source, allowNegative, isNumber).Success? ==>
      var rpn := Lexer.RpnOf(source, allowNegative, isNumber).value;
      BuildTree(rpn).Success? ==> Evaluable(BuildTree(rpn).value)
  {
    if Lexer.RpnOf(source, allowNegative, isNumber).Success? {
      var rpn := Lexer.RpnOf(source, allowNegative, isNumber).value;
      if BuildTree(rpn).Success? {
        var tree := BuildTree(rpn).value;
        RpnTokensClassified(source, allowNegative, isNumber);
        BuiltTreeIsFaithful(rpn);
        FilterKeepsAll(rpn);
        forall i | 0 <= i < |rpn|
          ensures Applicable(rpn[i])
        {
          ClassifiedIsApplicable(rpn[i], isNumber);
        }
        WellShapedEvaluable(tree);
      }
    }
  }

  /** A list of postfix items passes the item filter unchanged. */
  lemma {:induction false} FilterKeepsAll(ts: seq<Token>)
    requires forall i :: 0 <= i < |ts| ==> IsRpnItem(ts[i])
    ensures Filter(IsRpnItem, ts) == ts
    decreases |ts|
  {
    if ts != [] {
      FilterKeepsAll(ts[1..]);
      assert ts == [ts[0]] + ts[1..];
    }
  }

  /** A successful evaluation is the postfix evaluation of the converted
      token list: the tree adds nothing of its own. */
  lemma ValueIsPostfixValue<V>(num: Numerics<V>, isNumber: string -> bool, expression: string)
    ensures ExpressionValue(num, isNumber, expression).Success? ==>
      && Lexer.RpnOf(ToLower(expression), true, isNumber).Success?
      && EvalRpn(num, Lexer.RpnOf(ToLower(expression), true, isNumber).value)
        == Some(ExpressionValue(num, isNumber, expression).value)
  {
    var source := ToLower(expression);
    if ExpressionValue(num, isNumber, expression).Success? {
      var rpn := Lexer.RpnOf(source, true, isNumber).value;
      var tree := BuildTree(rpn).value;
      BuiltTreesEvaluable(source, true, isNumber);
      BuiltTreeIsFaithful(rpn);
      RpnTokensClassified(source, true, isNumber);
      FilterKeepsAll(rpn);
      TreeMatchesPostfix(num, tree);
    }
  }
}
