# mathEval in Dafny

A model of `MathEval.hpp`, the single-header arithmetic expression evaluator
of mathEval. It evaluates an expression in five stages:

1. It lower-cases the expression.
2. A `Tokenizer` cuts the text into tokens. Its `allowNegative_` flag decides
   whether a `-` is folded into the run that follows it or stands alone as an
   operator.
3. It classifies each token by a fixed priority. Commas are dropped and an
   unknown token is rejected.
4. A shunting-yard pass turns the tokens into reverse Polish notation (RPN).
5. A stack fold builds a syntax tree from the RPN, and the tree is evaluated
   by structural recursion.

## Modules

- `Vocabulary` holds the data types, the fixed tables, and the error
  outcomes. The tables are the special characters, the operators with
  precedence and associativity, `sin`/`cos`, `max`, and `pi`/`e`/`rc`. The
  errors replace the source's `assert`s: `UnrecognizedToken`,
  `MismatchedParenthesis` and `IncompleteExpression`.
- `Helpers` holds `ltrim`, `toLower` and the table predicates (`isSpecial`,
  `isOperator`, `isFunction`, `isVariable`, ...).
- `Lexer` holds `getTokenType` and the class `Tokenizer`.
  - The class keeps the fields `source` and `allowNegative`. Its methods
    `GetNextToken`, `GetRpnTokens` and `BuildRpn` update them in place.
  - Each method is proved equal to a specification function: `NextToken`,
    `Tokens` with `ClassifyAll`, and `RpnOf`.
  - The scanning loops are methods with loop invariants.
- `ShuntingYard` holds the conversion loop of `buildRPN`.
  - The method `Convert` pushes onto and pops from an operator stack held in a
    `seq`.
  - It is proved equal to the tail-recursive `ToRpn`.
  - The properties are proved about `ToRpn`: what it outputs, the invariants
    it keeps, and when it fails.
- `SyntaxTrees` holds the `Node` datatype, which replaces the raw pointers.
  - `BuildSyntaxTree` is a loop over a stack of nodes, proved equal to the
    fold `BuildTree`.
  - It is proved to succeed exactly when the stack height works out. A tree it
    builds is shown to read back as its RPN in postfix order, and that RPN
    rebuilds the tree.
- `Evaluator` holds the recursive `EvalSyntaxTree` and the whole pipeline,
  `EvalExpression`.
  - An independent RPN stack machine serves as a reference for evaluation.
- `WorkedCases` traces concrete expressions through the pipeline.

Floating-point values are an abstract type `V`. Every numeric primitive comes
in through a `Numerics<V>` record: `strtod`, the arithmetic operators, `fmod`,
`pow`, `sin`, `cos`, `>`, `atan(1)*4`, `exp(1)` and the integer 1729. The
`strtod`-based `isNumber` test is a parameter `isNumber: string -> bool`. A
lemma that depends on what `isNumber` says about particular strings states
those facts as preconditions.

### Behaviour of the code worth noting

- **The `allowNegative_` flag.**
  - It starts raised, and only a `(` token raises it (`MathEval.hpp:230-233`).
  - A negated run lowers it (`MathEval.hpp:220`). So does an ordinary run that
    ends at a special character (`MathEval.hpp:245`).
  - Every other special character (`,`, `+`, `)`, ...) leaves it as it was.
    So does an ordinary run that reaches the end of the source
    (`MathEval.hpp:251-253`).
- **No `sqrt`.** The function tables hold only `sin`, `cos` and `max`
  (`MathEval.hpp:89-96`). So `sqrt` and `-sqrt` classify as bad tokens
  (`Lexer.SquareRootIsUnknown`), and the demo's `-sqrt(2)` (`main.cpp:17`)
  ends in `UnrecognizedToken`.
- **`-(3)`.**
  - The scanner stops the `-` at the `(`, so `-(3)` scans as `-`, `(`, `3`,
    `)`. The conversion gives `3 -`.
  - The tree builder then finds one operand for a two-operand token
    (`MathEval.hpp:389`). So the expression ends in `IncompleteExpression`
    (`WorkedCases.NegatedParenthesisFails`).
- **The pop rule.** The code pops while `top >= incoming && incoming is
  left-associative` (`MathEval.hpp:318-330`). For this operator table that is
  the textbook rule (`ShuntingYard.YieldsIsTextbookRule`).
- **Function tokens.** Any incoming operator moves a function token from the
  stack to the output (`MathEval.hpp:333-336`), whatever its precedence
  (`ShuntingYard.FunctionPoppedByOperator`).

## Model

| member | source | states |
|---|---|---|
| Vocabulary.Variables | MathEval.hpp:74-78 | the constant table defines exactly `pi`, `e` and `rc` |
| Vocabulary.ApplyBinary | MathEval.hpp:94-96 | `max` returns one of its arguments: the first when it is greater, otherwise the second |
| Helpers.LTrim | MathEval.hpp:116-121 | the result is a suffix of the input; every dropped character is a space; the result does not start with a space |
| Helpers.ToLower | MathEval.hpp:123-137 | length is preserved; each of `A`..`Z` becomes its lower-case letter; every other character is unchanged |
| Helpers.ToLowerIdempotent | MathEval.hpp:123-137 | the output has no upper-case letter, and lower-casing it again changes nothing |
| Helpers.IsSpecial | MathEval.hpp:139-148 | membership in the special-character set; `OperatorsAreSpecial` relates it to the operator table |
| Helpers.IsOperator | MathEval.hpp:150-157 | membership in the operator table; `OperatorsAreNotNames` and `OperatorsAreSpecial` characterise it |
| Helpers.IsUnaryFunction | MathEval.hpp:159-166 | membership in the one-argument function table; characterised by `FunctionSpellings` |
| Helpers.IsBinaryFunction | MathEval.hpp:168-175 | membership in the two-argument function table; characterised by `FunctionSpellings` |
| Helpers.IsFunction | MathEval.hpp:177-184 | a function name, bare or after one `-`; characterised by `FunctionSpellings` |
| Helpers.IsVariable | MathEval.hpp:186-196 | a constant name, bare or after one `-`; characterised by `VariableSpellings` |
| Helpers.FunctionSpellings | MathEval.hpp:159-184 | a string is a function exactly when it is `sin`, `cos` or `max`, bare or with one leading `-` |
| Helpers.VariableSpellings | MathEval.hpp:186-196 | a string is a constant exactly when it is `pi`, `e` or `rc`, bare or with one leading `-` |
| Helpers.OperatorsAreSpecial | MathEval.hpp:72-87 | every operator is a single special character |
| Helpers.OperatorsAreNotNames | MathEval.hpp:150-196 | no operator is a function or a constant name |
| Lexer.GetTokenType | MathEval.hpp:256-278 | the classification by priority; characterised by `ClassificationPriority` |
| Lexer.ClassificationPriority | MathEval.hpp:256-278 | for each of the seven kinds, when a token gets it: function, then number, then constant, then operator, then `(`/`)`, otherwise bad |
| Lexer.LoneMinusIsOperator | MathEval.hpp:256-278 | a lone `-` is an operator token |
| Lexer.NegatedConstantIsVariable | MathEval.hpp:186-196 | `-pi` is a constant token |
| Lexer.NegatedFunctionIsFunction | MathEval.hpp:177-184 | `-sin` and `-max` are function tokens |
| Lexer.SquareRootIsUnknown | MathEval.hpp:89-96 | `sqrt` and `-sqrt` are bad tokens, because no table defines them |
| Lexer.UnaryStop | MathEval.hpp:222-223 | the unary scan stops inside the text, at a special character or a NUL, or at the end |
| Lexer.UnaryStopSkipsOrdinary | MathEval.hpp:222-223 | every character the unary scan passes over is neither special nor NUL |
| Lexer.FirstSpecial | MathEval.hpp:241-249 | a position found for the ordinary run holds a special character |
| Lexer.FirstSpecialSkipsOrdinary | MathEval.hpp:241-249 | no character before the found position (or in the whole text, when none is found) is special |
| Lexer.NextToken | MathEval.hpp:210-254 | the token and the remaining source together spell the left-trimmed source; the token is empty only when the trimmed source is empty |
| Lexer.TokenHasNoSpace | MathEval.hpp:210-254 | a scanned token never contains a space |
| Lexer.NegatedRunHasNoSpace | MathEval.hpp:219-228 | a negated run (a `-` folded with what follows) holds no space |
| Lexer.OrdinaryRunHasNoSpace | MathEval.hpp:240-253 | an ordinary run, ended by a special character or by the end of the source, holds no space |
| Lexer.FlagRaisedOnlyByOpenParen | MathEval.hpp:230-233 | a `(` token raises the flag, and a flag that was down rises only by a `(` |
| Lexer.UnaryMinusFolded | MathEval.hpp:219-228 | with the flag up, a leading `-` is folded into the run that follows it; the run holds no special character or NUL and stops at one or at the end; the flag is lowered |
| Lexer.BinaryMinusAlone | MathEval.hpp:219-238 | with the flag down, a leading `-` is scanned alone and the flag stays down |
| Lexer.OtherSpecialsKeepFlag | MathEval.hpp:230-238 | a special character other than `(` (and other than a foldable `-`) is scanned alone and leaves the flag unchanged |
| Lexer.RunEndedBySpecialClearsFlag | MathEval.hpp:240-247 | an ordinary run that stops at a special character lowers the flag and leaves that character in the source |
| Lexer.Tokens | MathEval.hpp:210-254 | the strings the tokenizer returns before its first `""`; characterised by `TokensCoverSource` and `TokensStep` |
| Lexer.FinalFlag | MathEval.hpp:210-254 | the flag the tokenizer is left with once it returns `""`; `TokensStep` gives its recursion, and `Tokenizer.GetRpnTokens` ends with it |
| Lexer.TokensCoverSource | MathEval.hpp:210-254 | every token scanned until the source is exhausted is non-empty and space-free, and the tokens concatenated equal the source with its spaces removed |
| Lexer.TokensStep | MathEval.hpp:210-254 | one scan: the token list of a source is its first token in front of the token list of what the scan leaves, the final flag is the one the rest leaves, and a scan that yields nothing leaves nothing |
| Lexer.DropCommas | MathEval.hpp:286-289 | the kept strings all come from the input and none is a comma; as a bag, the result is the input with every comma removed and every other string kept as often as it occurs |
| Lexer.ClassifyAll | MathEval.hpp:280-297 | classification of the scanned strings; characterised by `ClassifyAllMeaning` and `ClassifyCons` |
| Lexer.ClassifyAllMeaning | MathEval.hpp:280-297 | classification succeeds exactly when every non-comma token is recognized; on success the values are the tokens without commas, each tagged with its classified kind; a failure names an unrecognized non-comma token of the input |
| Lexer.ClassifyCons | MathEval.hpp:284-294 | one loop step: a comma is skipped, a bad token stops with `UnrecognizedToken`, and any other token is appended with its kind |
| Lexer.OperatorTokensKnown | MathEval.hpp:256-278 | every classified operator token is in the operator table, so the conversion can look up its precedence |
| Lexer.Tokenizer.constructor | MathEval.hpp:46-59 | a new tokenizer holds the source, with the flag up |
| Lexer.Tokenizer.GetNextToken | MathEval.hpp:210-254 | the returned token, the new source and the new flag are what `NextToken` gives for the old source and flag |
| Lexer.Tokenizer.GetRpnTokens | MathEval.hpp:280-297 | the result is the classification of all tokens scanned from the old state; on success the source is used up and the flag is `FinalFlag` of the old state |
| Lexer.Tokenizer.BuildRpn | MathEval.hpp:299-366 | the result is the conversion of the classified tokens, or the first error met on the way; on success the source is used up and the flag is `FinalFlag` of the old state |
| ShuntingYard.YieldsIsTextbookRule | MathEval.hpp:318-330 | the code's pop rule pops exactly when the top binds tighter, or equally tight with a left-associative incoming operator |
| ShuntingYard.NothingYieldsToPower | MathEval.hpp:318-330 | an incoming `^` pops no operator |
| ShuntingYard.Convert | MathEval.hpp:303-365 | the loop computes `ToRpn`; on success the output holds no parenthesis, is a permutation of the input's numbers, constants, operators and functions, and keeps numbers and constants in input order; it fails, with `MismatchedParenthesis`, exactly when the parentheses are unbalanced |
| ShuntingYard.ToRpn | MathEval.hpp:299-366 | the conversion as a function; characterised by `ConvertProperties` and the worked conversions |
| ShuntingYard.Step | MathEval.hpp:305-355 | one token of the conversion; characterised by `StepKeeps` |
| ShuntingYard.PopOperators | MathEval.hpp:317-341 | the pop loop for an incoming operator; characterised by `PopOperatorsKeeps`, `StaysBelow`, `EqualPrecedencePops` and `FunctionPoppedByOperator` |
| ShuntingYard.PopToOpen | MathEval.hpp:344-354 | the pop loop for a `)`; characterised by `PopToOpenKeeps` |
| ShuntingYard.Drain | MathEval.hpp:357-363 | the final loop; characterised by `DrainKeeps` |
| ShuntingYard.ConvertProperties | MathEval.hpp:299-366 | the same facts about `ToRpn` for use by functions and lemmas |
| ShuntingYard.PopOperatorsKeeps | MathEval.hpp:317-341 | popping for an incoming operator keeps the stack free of `)`, moves tokens without losing or duplicating any, keeps operand order and leaves every `(` in place |
| ShuntingYard.PopToOpenKeeps | MathEval.hpp:344-354 | a `)` fails with `MismatchedParenthesis` exactly when no `(` is on the stack; otherwise it moves the tokens above the nearest `(` and discards it |
| ShuntingYard.DrainKeeps | MathEval.hpp:357-363 | the final drain fails exactly when a `(` is left; otherwise the output is all postfix items, a permutation of what was held, in operand order |
| ShuntingYard.StepKeeps | MathEval.hpp:305-355 | one token fails exactly when it closes more parentheses than are open, and otherwise keeps the invariant |
| ShuntingYard.PushAdvances | MathEval.hpp:307-309 | pushing a `(`, a function or an operator keeps the stack and the output well formed, adds the token's postfix item to the bag and counts a `(` |
| ShuntingYard.OutputAdvances | MathEval.hpp:312-314 | a number or a constant joins the output and the operands in order, and the stack is unchanged |
| ShuntingYard.OperatorAdvances | MathEval.hpp:317-341 | an operator pops what yields to it and is pushed, keeping the invariant and the count of `(` |
| ShuntingYard.PopMovesTop | MathEval.hpp:326-335 | moving a top that is not a `(` to the output keeps the shape, the bag, the operands and the count of `(` |
| ShuntingYard.ShuntKeeps | MathEval.hpp:305-363 | from any valid state, the rest of the conversion fails exactly when the remaining tokens do not balance the open count, and otherwise finishes with the promised output |
| ShuntingYard.ShuntConsKeeps | MathEval.hpp:306-363 | the same facts for a non-empty input: the first step and the rest decide together |
| ShuntingYard.FirstStepFails | MathEval.hpp:344-354 | a first step that fails is a `)` with no `(` open: the input does not balance and the conversion fails with `MismatchedParenthesis` |
| ShuntingYard.FirstStepGoes | MathEval.hpp:306-363 | after a first step that succeeds, the conversion fails exactly when the input does not balance, and a success is a permutation that keeps the operands in order |
| ShuntingYard.StepGoes | MathEval.hpp:306-355 | a first step that succeeds keeps the invariant and leaves the same balance to the rest of the input |
| ShuntingYard.PowerGroupsRight | MathEval.hpp:318-340 | `2^3^2` converts to `2 3 2 ^ ^` |
| ShuntingYard.MinusGroupsLeft | MathEval.hpp:318-340 | `2-3-2` converts to `2 3 - 2 -` |
| ShuntingYard.ProductBindsTighter | MathEval.hpp:318-340 | `2+3*4` converts to `2 3 4 * +` |
| ShuntingYard.DrainExample | MathEval.hpp:357-363 | the drain moves the stack to the output top first |
| ShuntingYard.DrainSingle | MathEval.hpp:358-363 | draining one operator appends it to the output |
| ShuntingYard.StaysBelow | MathEval.hpp:318-341 | an operator that does not yield stays on the stack, and the incoming one is pushed above it |
| ShuntingYard.EqualPrecedencePops | MathEval.hpp:318-341 | an operator that yields is moved to the output before the incoming one is pushed |
| ShuntingYard.FunctionPoppedByOperator | MathEval.hpp:333-336 | a function token on the stack is moved to the output by any incoming operator, which is then pushed alone |
| ShuntingYard.OpeningThree | MathEval.hpp:306-341 | any `x o y ...` reaches the state with `o` on the stack and `x y` on the output |
| ShuntingYard.ClosingTwo | MathEval.hpp:306-363 | a final `o z` pops for `o`, pushes it, outputs `z` and drains |
| ShuntingYard.LeftAssociativeGroupsLeft | MathEval.hpp:318-341 | for any left-associative operator `o`, `x o y o z` converts to `x y o z o` |
| ShuntingYard.RightAssociativeGroupsRight | MathEval.hpp:318-341 | for any right-associative operator `o`, `x o y o z` converts to `x y z o o` |
| ShuntingYard.TighterOperatorFirst | MathEval.hpp:318-341 | when `q` binds tighter than `p`, `x p y q z` converts to `x y z q p` |
| SyntaxTrees.BuildSyntaxTree | MathEval.hpp:372-435 | the loop over a stack of nodes computes the fold `BuildTree` |
| SyntaxTrees.Graft | MathEval.hpp:376-431 | one token of the tree builder; characterised by `GraftKeeps`, `GraftOperation`, `GraftTwo` and `GraftOne` |
| SyntaxTrees.Fold | MathEval.hpp:376-431 | the tree builder's loop; characterised by `FoldHeight`, `FoldKeeps` and `FoldPostfix` |
| SyntaxTrees.BuildTree | MathEval.hpp:372-435 | the tree of an RPN; characterised by `BuildTreeSucceeds`, `BuiltTreeIsFaithful` and `RebuildFromPostfix` |
| SyntaxTrees.FoldHeight | MathEval.hpp:376-431 | the fold fails, with `IncompleteExpression`, exactly when some token finds too few nodes; otherwise the stack grows by the RPN's net effect |
| SyntaxTrees.BuildTreeSucceeds | MathEval.hpp:372-435 | building succeeds exactly when no token lacks operands and exactly one node remains; every failure is `IncompleteExpression` |
| SyntaxTrees.GraftKeeps | MathEval.hpp:378-429 | one token keeps every stacked node well-shaped, and the stack's postfix reading grows by that token |
| SyntaxTrees.GraftOperation | MathEval.hpp:388-429 | an operator or function token with enough nodes succeeds, keeps the nodes well-shaped and extends the postfix reading by the token |
| SyntaxTrees.GraftTwo | MathEval.hpp:388-417 | a two-argument token takes the top node as its right child and the one below as its left |
| SyntaxTrees.GraftOne | MathEval.hpp:418-428 | a one-argument function takes the top node as its left child and has no right child |
| SyntaxTrees.FoldKeeps | MathEval.hpp:376-431 | the fold keeps the nodes well-shaped, and their postfix reading is the RPN's postfix items |
| SyntaxTrees.BuiltTreeIsFaithful | MathEval.hpp:372-435 | a built tree has leaves without children, operators and `max` with two children, unary functions with only a left child, and it reads back as its RPN in postfix order |
| SyntaxTrees.FoldPostfix | MathEval.hpp:376-431 | folding a well-shaped tree's postfix reading pushes that tree |
| SyntaxTrees.FoldBinary | MathEval.hpp:388-401 | the same for a node with two children: left subtree, right subtree, then the node's token |
| SyntaxTrees.FoldNode | MathEval.hpp:388-429 | a node's own token, folded over its children, pushes the node |
| SyntaxTrees.GraftNode | MathEval.hpp:388-427 | a node's token, applied to a stack ending in its children, rebuilds the node: the first-popped node is the right child |
| SyntaxTrees.RebuildFromPostfix | MathEval.hpp:372-435 | building from a well-shaped tree's postfix reading returns that tree |
| SyntaxTrees.LeavesAreOperands | MathEval.hpp:378-386 | a well-shaped tree has one leaf per number or constant in its postfix reading |
| SyntaxTrees.OperandsOfItems | MathEval.hpp:376-431 | dropping parentheses keeps the numbers and constants |
| SyntaxTrees.LeafCountMatchesOperands | MathEval.hpp:372-435 | a built tree has as many leaves as the RPN has numbers and constants |
| SyntaxTrees.SubtractionTree | MathEval.hpp:388-401 | `2 3 -` builds `-` with `2` on the left and `3` on the right |
| SyntaxTrees.LoneOperatorIsIncomplete | MathEval.hpp:389 | `3 -` fails with `IncompleteExpression` |
| Evaluator.Unsigned | MathEval.hpp:446-447 | a value longer than one character that starts with `-` loses exactly that `-`; anything else is unchanged |
| Evaluator.NegationIsLocal | MathEval.hpp:446-468 | a signed node evaluates to the negation of the same node without its sign; the children are unchanged |
| Evaluator.EvalSyntaxTree | MathEval.hpp:441-469 | the recursive walk; characterised by `OperandOrder`, `FunctionOperands`, `NegationIsLocal` and, against the RPN stack machine, `TreeMatchesPostfix` |
| Evaluator.OperandOrder | MathEval.hpp:446-468 | an operator node applies its table entry to the left child's value, then the right child's, and negates the result when its text carries a sign |
| Evaluator.FunctionOperands | MathEval.hpp:446-468 | a function node with a two-argument name applies it to the left child's value, then the right child's; a one-argument function gets only the left child's value; the result is negated when the name carries a sign |
| Evaluator.MaxYieldsAnArgument | MathEval.hpp:461-462 | a `max` node yields one of its children's values, negated when it is `-max` |
| Evaluator.UnaryIgnoresRight | MathEval.hpp:461-463 | a unary function node's value does not depend on its right child |
| Evaluator.ConstantValues | MathEval.hpp:455-457 | `pi`, `-pi`, `e` and `rc` evaluate to the table's values, with the sign applied |
| Evaluator.NeedsIsArity | MathEval.hpp:404-425 | the evaluator takes as many children as the tree builder popped |
| Evaluator.RunPostfix | MathEval.hpp:441-469 | running a tree's postfix reading on an RPN stack machine pushes the tree's value |
| Evaluator.RunPostfixTwo | MathEval.hpp:458-462 | the same for a node with two arguments, the left value below the right |
| Evaluator.RunPostfixOne | MathEval.hpp:463-464 | the same for a unary function node |
| Evaluator.RunNode | MathEval.hpp:441-469 | a node's token run on its children's values pushes the node's value |
| Evaluator.RunToken | MathEval.hpp:441-469 | one step of the stack machine replaces the popped arguments by the token applied to them |
| Evaluator.TreeMatchesPostfix | MathEval.hpp:441-469 | recursive evaluation of a tree equals stack evaluation of its postfix reading |
| Evaluator.ClassifiedIsApplicable | MathEval.hpp:441-469 | every classified token that is not a parenthesis can be evaluated: its table lookup exists |
| Evaluator.WellShapedEvaluable | MathEval.hpp:441-469 | a well-shaped tree whose tokens can all be evaluated can be evaluated as a whole |
| Evaluator.PostfixApplicable | MathEval.hpp:441-469 | when every token of a tree's postfix reading can be evaluated, so can the node's own token and every token of each child |
| Evaluator.RpnTokensClassified | MathEval.hpp:299-366 | every token of a converted expression is a postfix item with its classified kind |
| Evaluator.BuiltTreesEvaluable | MathEval.hpp:471-478 | every tree built from a converted expression can be evaluated, so `evalSyntaxTree` never meets an unknown lookup |
| Evaluator.ExpressionValue | MathEval.hpp:471-480 | the pipeline as a function; characterised by `ValueIsPostfixValue`, `CaseInsensitive` and the worked cases |
| Evaluator.EvalExpression | MathEval.hpp:471-480 | the pipeline (lower-case, tokenize, convert, build, evaluate) computes `ExpressionValue` |
| Evaluator.CaseInsensitive | MathEval.hpp:471-474 | an expression and its lower-cased form evaluate alike |
| Evaluator.ValueIsPostfixValue | MathEval.hpp:471-480 | a successful evaluation equals the RPN stack machine run on the converted expression |
| WorkedCases.ScanNegatedParenthesis | MathEval.hpp:219-228 | in `-(3)` with the flag up, the `-` stops at `(` and is scanned alone |
| WorkedCases.ScanOpenThree | MathEval.hpp:230-238 | `(` is scanned alone and raises the flag |
| WorkedCases.ScanThreeClose | MathEval.hpp:240-247 | `3` stops at `)` and lowers the flag, whatever it was |
| WorkedCases.ScanClose | MathEval.hpp:230-238 | `)` is scanned alone and leaves the flag down |
| WorkedCases.NegatedParenthesisTokens | MathEval.hpp:210-254 | `-(3)` scans as `-`, `(`, `3`, `)` |
| WorkedCases.ScanThenTokens | MathEval.hpp:210-254 | a scan that yields a token puts it in front of the tokens of the rest |
| WorkedCases.ClassifyStructural | MathEval.hpp:256-278 | `-`, `(` and `)` classify as operator, open and close |
| WorkedCases.ClassifyParentheses | MathEval.hpp:256-278 | `(` and `)` classify as open and close |
| WorkedCases.ClassifyNumber | MathEval.hpp:256-278 | a string that `strtod` reads completely and that starts with a digit is a number token |
| WorkedCases.ClassifyOne | MathEval.hpp:284-294 | a recognized non-comma token is put in front of the classified rest |
| WorkedCases.ClassifyFour | MathEval.hpp:280-297 | four recognized non-comma tokens classify in order |
| WorkedCases.NegatedParenthesisClassified | MathEval.hpp:280-297 | `-(3)` classifies as operator, open, number, close |
| WorkedCases.NegatedParenthesisRpn | MathEval.hpp:299-366 | `- ( 3 )` converts to `3 -` |
| WorkedCases.OperatorBeforeGroup | MathEval.hpp:306-363 | for any operator and operand, `op ( x )` converts to `x op` |
| WorkedCases.GroupSteps | MathEval.hpp:306-354 | the four steps of `op ( x )`: push `op`, push `(`, output `x`, pop to the `(` |
| WorkedCases.NegatedParenthesisFails | MathEval.hpp:471-480 | evaluating `-(3)` fails with `IncompleteExpression` |
| WorkedCases.FunctionBeforeOperator | MathEval.hpp:306-363 | for any function, operand, operator and operand, `f ( x ) o y` converts to `x f y o` |
| WorkedCases.CallThenRest | MathEval.hpp:306-354 | a call `f ( x )` at the start leaves `f` on the stack and `x` on the output |
| WorkedCases.CallSteps | MathEval.hpp:306-354 | the steps of a call: push `f`, push `(`, output the arguments, pop to the `(` leaving `f` |
| WorkedCases.CallOfTwo | MathEval.hpp:306-363 | for any function and operands, `f ( a b )` converts to `a b f` |
| WorkedCases.ScanMax | MathEval.hpp:240-247 | `max` stops at `(` and lowers the flag |
| WorkedCases.ScanOpenTwo | MathEval.hpp:230-238 | `(` is scanned alone and raises the flag |
| WorkedCases.ScanTwoComma | MathEval.hpp:240-247 | `2` stops at `,` and lowers the flag |
| WorkedCases.ScanComma | MathEval.hpp:230-238 | `,` is scanned alone and leaves the flag as it was |
| WorkedCases.CallTokens | MathEval.hpp:210-254 | `max(2,3)` scans as `max`, `(`, `2`, `,`, `3`, `)` |
| WorkedCases.CallStrings | MathEval.hpp:256-278 | `max`, `(`, `)`, `2` and `3` classify as function, open, close and numbers |
| WorkedCases.CallTailClassified | MathEval.hpp:284-294 | `, 3 )` classifies as `3 )`: the comma is skipped |
| WorkedCases.CallClassified | MathEval.hpp:280-297 | the strings of `max(2,3)` classify as function, open, number, number, close |
| WorkedCases.CallRpn | MathEval.hpp:299-366 | `max(2,3)` converts to `2 3 max` |
| WorkedCases.CallTree | MathEval.hpp:404-417 | `2 3 max` builds `max` with `2` on the left and `3` on the right |
| WorkedCases.CallValue | MathEval.hpp:461-462 | that tree evaluates to `max` applied to 2, then 3 |
| WorkedCases.MaxOfTwoNumbers | MathEval.hpp:471-480 | evaluating `max(2,3)` gives `max` applied to 2, then 3 |
| WorkedCases.UnclosedGroupIsMismatched | MathEval.hpp:357-363 | `(1+2` fails with `MismatchedParenthesis` |
| WorkedCases.StrayCloseIsMismatched | MathEval.hpp:344-354 | `1+2)` fails with `MismatchedParenthesis` |

## Left out

- `main.cpp`, the demo driver: console output and `system("pause")`.
- Floating-point arithmetic. Values and the numeric primitives (`+ - * /`,
  `fmod`, `pow`, `sin`, `cos`, `atan`, `exp`, `>`) are the abstract fields of
  `Numerics<V>`. The model proves structural facts only: operand order, sign
  placement and arity.
- `strtod`. `isNumber` is a parameter, and so is the number parse in the
  evaluator. Quirks such as `nan` or `inf` passing `isNumber` are therefore not
  modelled.
- Memory management (`new Node`, `delete tree`). Trees are values of the
  inductive datatype `Node`, so the fact that evaluation consumes and frees
  the tree has no counterpart.
- `assert` under `NDEBUG`. Each assertion site is an explicit error outcome;
  the compiled-out behaviour is undefined and is not modelled.
- The `SyntaxTree` class only stores its RPN argument for
  `buildSyntaxTree`. It is modelled as the method
  `SyntaxTrees.BuildSyntaxTree`, which takes the RPN as a parameter.
- `SyntaxTrees.TakesTwo`: in the source, `token.value.substr(1)` on an empty
  function token would throw. No empty token reaches it (`Lexer.NextToken`),
  so the model treats the empty value as not binary.
- `Evaluator.EvalSyntaxTree`: a node kind outside number, constant, operator
  and function leaves `output` uninitialised in the source. The model
  requires `Evaluable` and proves that every tree the pipeline builds
  satisfies it (`Evaluator.BuiltTreesEvaluable`).
- `Evaluator.NegationIsLocal` covers only values whose unsigned part does not
  itself start with `-`. With two signs, the stripped node would strip again,
  so "the same node without its sign" is not the bare value.
- `Lexer.Tokenizer.GetRpnTokens` and `Lexer.Tokenizer.BuildRpn` state the
  final source and flag only on success. After an unrecognized token the
  source and the flag are left just past that token; the model does not
  state them.
