/** The syntax tree: the postfix token list is folded into a tree with a
    stack of subtrees. A number or constant becomes a leaf; an operator or
    a two-argument function takes the top subtree as its right child and
    the one below as its left; a one-argument function takes the top
    subtree as its left child. The stack is a sequence whose last element
    is the top. */
module SyntaxTrees {
  import opened Vocabulary
  import opened Helpers
  import opened ShuntingYard

  datatype Node = Node(leaf: Token, left: Option<Node>, right: Option<Node>)

  /** Whether a function token takes two arguments: its text, or its text
      after the first character, is a two-argument function name. */
  predicate TakesTwo(value: string)
  {
    IsBinaryFunction(value) || (|value| > 0 && IsBinaryFunction(value[1..]))
  }

  /** How many subtrees a token takes from the stack. */
  function Arity(t: Token): nat
  {
    if t.kind == OperatorToken then 2
    else if t.kind == FunctionToken then (if TakesTwo(t.value) then 2 else 1)
    else 0
  }

  /** One token of the fold: operands push a leaf, operators and functions
      replace their arguments by a new node and fail when there are too
      few; any other token is passed over. */
  function Graft(t: Token, stack: seq<Node>): Result<seq<Node>>
  {
    if IsOperand(t) then Success(stack + [Node(t, None, None)])
    else if !IsRpnItem(t) then Success(stack)
    else if |stack| < Arity(t) then Failure(IncompleteExpression)
    else if Arity(t) == 2 then
      Success(stack[..|stack| - 2] + [Node(t, Some(stack[|stack| - 2]), Some(stack[|stack| - 1]))])
    else
      Success(stack[..|stack| - 1] + [Node(t, Some(stack[|stack| - 1]), None)])
  }

  function Fold(rpn: seq<Token>, stack: seq<Node>): Result<seq<Node>>
    decreases |rpn|
  {
    if rpn == [] then Success(stack)
    else
      match Graft(rpn[0], stack)
      case Failure(e) => Failure(e)
      case Success(next) => Fold(rpn[1..], next)
  }

  /** The tree of a postfix token list: the fold must leave exactly one tree. */
  function BuildTree(rpn: seq<Token>): Result<Node>
  {
    match Fold(rpn, [])
    case Failure(e) => Failure(e)
    case Success(stack) => if |stack| == 1 then Success(stack[0]) else Failure(IncompleteExpression)
  }

  /** The tree-building loop over the postfix list. */
  method BuildSyntaxTree(rpn: seq<Token>) returns (r: Result<Node>)
    ensures r == BuildTree(rpn)
  {
    var expressions: seq<Node> := [];
    for i := 0 to |rpn|
      invariant Fold(rpn[i..], expressions) == Fold(rpn, [])
    {
      var token := rpn[i];
      assert rpn[i..][1..] == rpn[i + 1..];
      ghost var before := expressions;
      if token.kind == NumberToken || token.kind == VariableToken {
        expressions := expressions + [Node(token, None, None)];
      } else if token.kind == OperatorToken {
        if |expressions| < 2 {
          return Failure(IncompleteExpression);
        }
        var right := expressions[|expressions| - 1];
        expressions := expressions[..|expressions| - 1];
        var left := expressions[|expressions| - 1];
        expressions := expressions[..|expressions| - 1];
        expressions := expressions + [Node(token, Some(left), Some(right))];
      } else if token.kind == FunctionToken {
        if IsBinaryFunction(token.value) || (|token.value| > 0 && IsBinaryFunction(token.value[1..])) {
          if |expressions| < 2 {
            return Failure(IncompleteExpression);
          }
          var right := expressions[|expressions| - 1];
          expressions := expressions[..|expressions| - 1];
          var left := expressions[|expressions| - 1];
          expressions := expressions[..|expressions| - 1];
          expressions := expressions + [Node(token, Some(left), Some(right))];
        } else {
          if |expressions| < 1 {
            return Failure(IncompleteExpression);
          }
          var left := expressions[|expressions| - 1];
          expressions := expressions[..|expressions| - 1];
          expressions := expressions + [Node(token, Some(left), None)];
        }
      }
      assert Graft(token, before).Success? && Graft(token, before).value == expressions;
    }
    if |expressions| != 1 {
      return Failure(IncompleteExpression);
    }
    return Success(expressions[0]);
  }

  // ---------------------------------------------------------------------
  // When building succeeds: the stack-height count

  /** The change a token makes to the height of the stack. */
  function Effect(t: Token): int
  {
    if IsRpnItem(t) then 1 - Arity(t) else 0
  }

  function Net(rpn: seq<Token>): int
  {
    if rpn == [] then 0 else Effect(rpn[0]) + Net(rpn[1..])
  }

  /** Starting from height `h`, every token finds as many subtrees as it takes. */
  predicate Fits(rpn: seq<Token>, h: int)
    decreases |rpn|
  {
    rpn == [] || (h >= Arity(rpn[0]) && Fits(rpn[1..], h + Effect(rpn[0])))
  }

  lemma {:induction false} FoldHeight(rpn: seq<Token>, stack: seq<Node>)
    ensures Fold(rpn, stack).Success? <==> Fits(rpn, |stack|)
    ensures Fold(rpn, stack).Failure? ==> Fold(rpn, stack).error == IncompleteExpression
    ensures Fold(rpn, stack).Success? ==> |Fold(rpn, stack).value| == |stack| + Net(rpn)
    decreases |rpn|
  {
    if rpn != [] {
      match Graft(rpn[0], stack)
      case Failure(e) =>
      case Success(next) =>
        assert |next| == |stack| + Effect(rpn[0]);
        FoldHeight(rpn[1..], next);
    }
  }

  /** Building succeeds exactly when no token runs short of arguments and
      the heights add up to one tree; otherwise it reports an incomplete
      expression. */
  lemma BuildTreeSucceeds(rpn: seq<Token>)
    ensures BuildTree(rpn).Success? <==> Fits(rpn, 0) && Net(rpn) == 1
    ensures BuildTree(rpn).Failure? ==> BuildTree(rpn).error == IncompleteExpression
  {
    FoldHeight(rpn, []);
  }

  // ---------------------------------------------------------------------
  // What a built tree is: node shapes and the postfix order it came from

  /** Leaves for numbers and constants, two children for operators and
      two-argument functions, a left child alone for other functions. */
  predicate WellShaped(n: Node)
    decreases n
  {
    if IsOperand(n.leaf) then n.left.None? && n.right.None?
    else if n.leaf.kind == OperatorToken || n.leaf.kind == FunctionToken then
      && n.left.Some? && WellShaped(n.left.value)
      && (if Arity(n.leaf) == 2 then n.right.Some? && WellShaped(n.right.value) else n.right.None?)
    else false
  }

  predicate AllWellShaped(stack: seq<Node>)
  {
    forall i :: 0 <= i < |stack| ==> WellShaped(stack[i])
  }

  /** The tokens of a tree in postfix order: left subtree, right subtree,
      then the node's own token. */
  function Postfix(n: Node): seq<Token>
    decreases n
  {
    (if n.left.Some? then Postfix(n.left.value) else [])
    + (if n.right.Some? then Postfix(n.right.value) else [])
    + [n.leaf]
  }

  /** The postfix tokens of a stack of trees, bottom first. */
  function Flatten(stack: seq<Node>): seq<Token>
  {
    if stack == [] then [] else Flatten(stack[..|stack| - 1]) + Postfix(stack[|stack| - 1])
  }

  lemma FlattenPush(stack: seq<Node>, n: Node)
    ensures Flatten(stack + [n]) == Flatten(stack) + Postfix(n)
  {
    assert (stack + [n])[..|stack|] == stack;
  }

  /** One graft keeps every tree well shaped, and the postfix tokens of the
      stack grow by the token when it is a postfix item. */
  lemma GraftKeeps(t: Token, stack: seq<Node>)
    requires AllWellShaped(stack)
    ensures Graft(t, stack).Success? ==>
      && AllWellShaped(Graft(t, stack).value)
      && Flatten(Graft(t, stack).value) == Flatten(stack) + Filter(IsRpnItem, [t])
  {
    FilterSingle(IsRpnItem, t);
    if Graft(t, stack).Success? && IsRpnItem(t) {
      if IsOperand(t) {
        FlattenPush(stack, Node(t, None, None));
        ReplaceTop(stack, 0, Node(t, None, None));
      } else {
        GraftOperation(t, stack);
      }
    }
  }

  /** An operator or function replaces its arguments by a node over them. */
  lemma GraftOperation(t: Token, stack: seq<Node>)
    requires AllWellShaped(stack) && IsRpnItem(t) && !IsOperand(t) && |stack| >= Arity(t)
    ensures Graft(t, stack).Success?
    ensures AllWellShaped(Graft(t, stack).value)
    ensures Flatten(Graft(t, stack).value) == Flatten(stack) + [t]
  {
    if Arity(t) == 2 {
      var front := stack[..|stack| - 1];
      SplitLast(stack);
      SplitLast(front);
      assert front[..|front| - 1] == stack[..|stack| - 2];
      GraftTwo(t, stack[..|stack| - 2], stack[|stack| - 2], stack[|stack| - 1]);
    } else {
      SplitLast(stack);
      GraftOne(t, stack[..|stack| - 1], stack[|stack| - 1]);
    }
  }

  lemma SplitLast(stack: seq<Node>)
    requires stack != []
    ensures stack == stack[..|stack| - 1] + [stack[|stack| - 1]]
  {
  }

  lemma GraftTwo(t: Token, base: seq<Node>, l: Node, r: Node)
    requires AllWellShaped(base + [l] + [r]) && IsRpnItem(t) && !IsOperand(t) && Arity(t) == 2
    ensures Graft(t, base + [l] + [r]) == Success(base + [Node(t, Some(l), Some(r))])
    ensures AllWellShaped(base + [Node(t, Some(l), Some(r))])
    ensures Flatten(base + [Node(t, Some(l), Some(r))]) == Flatten(base + [l] + [r]) + [t]
  {
    var stack := base + [l] + [r];
    assert stack[..|stack| - 2] == base && stack[|stack| - 2] == l && stack[|stack| - 1] == r;
    assert WellShaped(l) && WellShaped(r);
    ReplaceTop(stack, 2, Node(t, Some(l), Some(r)));
    FlattenTwo(t, base, l, r);
  }

  lemma FlattenTwo(t: Token, base: seq<Node>, l: Node, r: Node)
    ensures Flatten(base + [Node(t, Some(l), Some(r))]) == Flatten(base + [l] + [r]) + [t]
  {
    FlattenPush(base, Node(t, Some(l), Some(r)));
    FlattenPush(base, l);
    FlattenPush(base + [l], r);
  }

  lemma GraftOne(t: Token, base: seq<Node>, l: Node)
    requires AllWellShaped(base + [l]) && IsRpnItem(t) && !IsOperand(t) && Arity(t) == 1
    ensures Graft(t, base + [l]) == Success(base + [Node(t, Some(l), None)])
    ensures AllWellShaped(base + [Node(t, Some(l), None)])
    ensures Flatten(base + [Node(t, Some(l), None)]) == Flatten(base + [l]) + [t]
  {
    var stack := base + [l];
    assert stack[..|stack| - 1] == base && stack[|stack| - 1] == l;
    assert WellShaped(l);
    ReplaceTop(stack, 1, Node(t, Some(l), None));
    FlattenOne(t, base, l);
  }

  lemma FlattenOne(t: Token, base: seq<Node>, l: Node)
    ensures Flatten(base + [Node(t, Some(l), None)]) == Flatten(base + [l]) + [t]
  {
    FlattenPush(base, Node(t, Some(l), None));
    FlattenPush(base, l);
  }

  /** Replacing the top `k` trees by a well-shaped tree keeps the stack well
      shaped. */
  lemma ReplaceTop(stack: seq<Node>, k: nat, n: Node)
    requires AllWellShaped(stack) && k <= |stack|
    requires WellShaped(n)
    ensures AllWellShaped(stack[..|stack| - k] + [n])
  {
    var next := stack[..|stack| - k] + [n];
    forall i | 0 <= i < |next|
      ensures WellShaped(next[i])
    {
      if i < |stack| - k {
        assert next[i] == stack[i];
      }
    }
  }

  lemma {:induction false} FoldKeeps(rpn: seq<Token>, stack: seq<Node>)
    requires AllWellShaped(stack)
    ensures Fold(rpn, stack).Success? ==>
      && AllWellShaped(Fold(rpn, stack).value)
      && Flatten(Fold(rpn, stack).value) == Flatten(stack) + Filter(IsRpnItem, rpn)
    decreases |rpn|
  {
    if rpn == [] {
      assert Filter(IsRpnItem, rpn) == [];
    } else {
      GraftKeeps(rpn[0], stack);
      if Graft(rpn[0], stack).Success? {
        var next := Graft(rpn[0], stack).value;
        FoldKeeps(rpn[1..], next);
        FilterCons(IsRpnItem, rpn);
        Associative(Flatten(stack), Filter(IsRpnItem, [rpn[0]]), Filter(IsRpnItem, rpn[1..]));
      }
    }
  }

  /** A built tree is well shaped, and its postfix tokens are exactly the
      postfix items of the input, in order: nothing is lost, reordered or
      invented. */
  lemma BuiltTreeIsFaithful(rpn: seq<Token>)
    ensures BuildTree(rpn).Success? ==>
      WellShaped(BuildTree(rpn).value) && Postfix(BuildTree(rpn).value) == Filter(IsRpnItem, rpn)
  {
    FoldKeeps(rpn, []);
    if BuildTree(rpn).Success? {
      var stack := Fold(rpn, []).value;
      assert stack == [] + [stack[0]];
      FlattenPush([], stack[0]);
      assert Flatten([]) + Postfix(stack[0]) == Postfix(stack[0]);
      assert Flatten([]) + Filter(IsRpnItem, rpn) == Filter(IsRpnItem, rpn);
    }
  }

  /** Folding the postfix tokens of a well-shaped tree pushes that very tree. */
  lemma {:induction false} FoldPostfix(n: Node, rest: seq<Token>, stack: seq<Node>)
    requires WellShaped(n)
    ensures Fold(Postfix(n) + rest, stack) == Fold(rest, stack + [n])
    decreases n, 1
  {
    if n.left.Some? && n.right.Some? {
      FoldBinary(n, rest, stack);
    } else if n.left.Some? {
      var l := n.left.value;
      PostfixUnary(n, rest, stack);
      FoldPostfix(l, [n.leaf] + rest, stack);
      FoldNode(n, rest, stack);
    } else {
      PostfixLeaf(n, rest, stack);
      FoldNode(n, rest, stack);
    }
  }

  lemma {:induction false} FoldBinary(n: Node, rest: seq<Token>, stack: seq<Node>)
    requires WellShaped(n) && n.left.Some? && n.right.Some?
    ensures Fold(Postfix(n) + rest, stack) == Fold(rest, stack + [n])
    decreases n, 0
  {
    var l, r := n.left.value, n.right.value;
    var tail := [n.leaf] + rest;
    PostfixBinary(n, rest, stack);
    FoldPostfix(l, Postfix(r) + tail, stack);
    FoldPostfix(r, tail, stack + [l]);
    FoldNode(n, rest, stack);
  }

  lemma PostfixBinary(n: Node, rest: seq<Token>, stack: seq<Node>)
    requires n.left.Some? && n.right.Some?
    ensures Postfix(n) + rest == Postfix(n.left.value) + (Postfix(n.right.value) + ([n.leaf] + rest))
    ensures stack + [n.left.value] + [n.right.value] == stack + Children(n)
  {
  }

  lemma PostfixUnary(n: Node, rest: seq<Token>, stack: seq<Node>)
    requires n.left.Some? && n.right.None?
    ensures Postfix(n) + rest == Postfix(n.left.value) + ([n.leaf] + rest)
    ensures stack + [n.left.value] == stack + Children(n)
  {
  }

  lemma PostfixLeaf(n: Node, rest: seq<Token>, stack: seq<Node>)
    requires n.left.None? && n.right.None?
    ensures Postfix(n) + rest == [n.leaf] + rest
    ensures stack == stack + Children(n)
  {
  }

  function Children(n: Node): seq<Node>
  {
    (if n.left.Some? then [n.left.value] else []) + (if n.right.Some? then [n.right.value] else [])
  }

  /** The node's own token, folded over its children, pushes the node. */
  lemma FoldNode(n: Node, rest: seq<Token>, stack: seq<Node>)
    requires WellShaped(n)
    ensures Fold([n.leaf] + rest, stack + Children(n)) == Fold(rest, stack + [n])
  {
    GraftNode(n, stack);
    var tail := [n.leaf] + rest;
    assert tail[0] == n.leaf && tail[1..] == rest;
  }

  /** The last token of a well-shaped tree rebuilds it from its children. */
  lemma GraftNode(n: Node, stack: seq<Node>)
    requires WellShaped(n)
    ensures Graft(n.leaf, stack + Children(n)) == Success(stack + [n])
  {
    var s := stack + Children(n);
    if IsOperand(n.leaf) {
      assert s == stack;
    } else if Arity(n.leaf) == 2 {
      assert s[..|s| - 2] == stack;
      assert Node(n.leaf, Some(s[|s| - 2]), Some(s[|s| - 1])) == n;
      assert s[..|s| - 2] + [Node(n.leaf, Some(s[|s| - 2]), Some(s[|s| - 1]))] == stack + [n];
    } else {
      assert s[..|s| - 1] == stack;
      assert Node(n.leaf, Some(s[|s| - 1]), None) == n;
      assert s[..|s| - 1] + [Node(n.leaf, Some(s[|s| - 1]), None)] == stack + [n];
    }
  }

  /** Round trip: building from the postfix tokens of a well-shaped tree
      gives back that tree. */
  lemma RebuildFromPostfix(n: Node)
    requires WellShaped(n)
    ensures BuildTree(Postfix(n)) == Success(n)
  {
    FoldPostfix(n, [], []);
    assert Postfix(n) + [] == Postfix(n);
    assert [] + [n] == [n];
  }

  // ---------------------------------------------------------------------
  // Leaves

  function LeafCount(n: Node): nat
    decreases n
  {
    if n.left.None? && n.right.None? then 1
    else
      (if n.left.Some? then LeafCount(n.left.value) else 0)
      + (if n.right.Some? then LeafCount(n.right.value) else 0)
  }

  /** In a well-shaped tree the leaves are its numbers and constants. */
  lemma {:induction false} LeavesAreOperands(n: Node)
    requires WellShaped(n)
    ensures LeafCount(n) == |Filter(IsOperand, Postfix(n))|
    decreases n
  {
    var l := if n.left.Some? then Postfix(n.left.value) else [];
    var r := if n.right.Some? then Postfix(n.right.value) else [];
    FilterAppend(IsOperand, l + r, [n.leaf]);
    FilterAppend(IsOperand, l, r);
    FilterSingle(IsOperand, n.leaf);
    if n.left.Some? {
      LeavesAreOperands(n.left.value);
    }
    if n.right.Some? {
      LeavesAreOperands(n.right.value);
    }
  }

  lemma {:induction false} OperandsOfItems(ts: seq<Token>)
    ensures Filter(IsOperand, Filter(IsRpnItem, ts)) == Filter(IsOperand, ts)
    decreases |ts|
  {
    if ts != [] {
      OperandsOfItems(ts[1..]);
      FilterCons(IsRpnItem, ts);
      FilterSingle(IsRpnItem, ts[0]);
      FilterAppend(IsOperand, Filter(IsRpnItem, [ts[0]]), Filter(IsRpnItem, ts[1..]));
      FilterSingle(IsOperand, ts[0]);
      assert Filter(IsOperand, []) == [];
    }
  }

  /** A built tree has one leaf per number or constant of its input. */
  lemma LeafCountMatchesOperands(rpn: seq<Token>)
    ensures BuildTree(rpn).Success? ==> LeafCount(BuildTree(rpn).value) == |Filter(IsOperand, rpn)|
  {
    BuiltTreeIsFaithful(rpn);
    if BuildTree(rpn).Success? {
      LeavesAreOperands(BuildTree(rpn).value);
      OperandsOfItems(rpn);
    }
  }

  // ---------------------------------------------------------------------
  // Worked cases

  /** `2 3 -` becomes a '-' node with 2 on the left and 3 on the right. */
  lemma SubtractionTree()
    ensures BuildTree([Num("2"), Num("3"), Op("-")])
      == Success(Node(Op("-"), Some(Node(Num("2"), None, None)), Some(Node(Num("3"), None, None))))
  {
    var two, three := Node(Num("2"), None, None), Node(Num("3"), None, None);
    var n := Node(Op("-"), Some(two), Some(three));
    assert WellShaped(n);
    assert Postfix(n) == [Num("2"), Num("3"), Op("-")];
    RebuildFromPostfix(n);
  }

  /** `3 -` lacks an operand: the output of `-(3)`, whose '-' comes before a
      '(' while negation is allowed and is therefore scanned as a lone
      operator, is an incomplete expression. */
  lemma LoneOperatorIsIncomplete()
    ensures BuildTree([Num("3"), Op("-")]) == Failure(IncompleteExpression)
  {
    var rpn := [Num("3"), Op("-")];
    assert Graft(rpn[0], []).value == [Node(Num("3"), None, None)];
    assert rpn[1..][0] == Op("-");
    assert Fold(rpn[1..], [Node(Num("3"), None, None)]) == Failure(IncompleteExpression);
  }
}
