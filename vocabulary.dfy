/** The data types and the fixed lookup tables of the evaluator: token kinds,
    tokens, the error outcomes that replace the source's assertions, the
    special-character set, and the operator, function and constant tables. */
module Vocabulary {

  datatype Option<T> = None | Some(value: T)

  /** The seven kinds a token can be classified as. */
  datatype TokenType =
    | NumberToken
    | VariableToken
    | OperatorToken
    | OpenBToken
    | CloseBToken
    | FunctionToken
    | BadToken

  datatype Token = Token(value: string, kind: TokenType)

  /** Each failing assertion of the source becomes one of these outcomes. */
  datatype Error =
    | UnrecognizedToken(token: string)  // a token classified BadToken
    | MismatchedParenthesis             // ')' without '(' or '(' left open
    | IncompleteExpression              // too few operands, or not exactly one root

  datatype Result<T> = Success(value: T) | Failure(error: Error)

  /** The arithmetic an operator entry stands for. */
  datatype MathFunction = Add | Subtract | Multiply | Divide | Fmod | Pow

  datatype OperatorExpr = OperatorExpr(mathFunction: MathFunction, precedence: int, leftAssociative: bool)

  datatype UnaryFunction = Sin | Cos

  datatype BinaryFunction = Max

  /** The characters that end a run of ordinary characters. */
  const SpecialChars: set<char> := {'+', '-', '*', '/', '(', ')', ' ', ',', '^', '%'}

  const Operators: map<string, OperatorExpr> := map[
    "+" := OperatorExpr(Add, 2, true),
    "-" := OperatorExpr(Subtract, 2, true),
    "*" := OperatorExpr(Multiply, 3, true),
    "/" := OperatorExpr(Divide, 3, true),
    "%" := OperatorExpr(Fmod, 3, true),
    "^" := OperatorExpr(Pow, 4, false)
  ]

  const UnaryFunctions: map<string, UnaryFunction> := map["sin" := Sin, "cos" := Cos]

  const BinaryFunctions: map<string, BinaryFunction> := map["max" := Max]

  /** The floating-point machinery the evaluator relies on, over an abstract
      value type `V`: `parse` is strtod, `pi` is atan(1) * 4, `e` is exp(1),
      `fromInt` converts an integer literal, and the rest are the C++
      operators and the math library functions. */
  datatype Numerics<!V> = Numerics(
    parse: string -> V,
    pi: V,
    e: V,
    fromInt: int -> V,
    negate: V -> V,
    add: (V, V) -> V,
    subtract: (V, V) -> V,
    multiply: (V, V) -> V,
    divide: (V, V) -> V,
    fmod: (V, V) -> V,
    pow: (V, V) -> V,
    sin: V -> V,
    cos: V -> V,
    greater: (V, V) -> bool)

  const VariableNames: set<string> := {"pi", "e", "rc"}

  /** The named constants and their values. */
  function Variables<V>(num: Numerics<V>): (m: map<string, V>)
    ensures m.Keys == VariableNames
  {
    map["pi" := num.pi, "e" := num.e, "rc" := num.fromInt(1729)]
  }

  function ApplyOperator<V>(num: Numerics<V>, f: MathFunction, a: V, b: V): V
  {
    match f
    case Add => num.add(a, b)
    case Subtract => num.subtract(a, b)
    case Multiply => num.multiply(a, b)
    case Divide => num.divide(a, b)
    case Fmod => num.fmod(a, b)
    case Pow => num.pow(a, b)
  }

  function ApplyUnary<V>(num: Numerics<V>, f: UnaryFunction, a: V): V
  {
    match f
    case Sin => num.sin(a)
    case Cos => num.cos(a)
  }

  /** `max` returns its first argument when it is greater, else its second. */
  function ApplyBinary<V>(num: Numerics<V>, f: BinaryFunction, a: V, b: V): (r: V)
    ensures r == a || r == b
    ensures num.greater(a, b) ==> r == a
    ensures !num.greater(a, b) ==> r == b
  {
    match f
    case Max => if num.greater(a, b) then a else b
  }
}
