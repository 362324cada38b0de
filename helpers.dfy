/** The string helpers and the table predicates used by the tokenizer, the
    classifier and the tree builder. */
module Helpers {
  import opened Vocabulary

  /** Drops the leading run of spaces and keeps the rest unchanged. */
  function LTrim(s: string): (r: string)
    ensures |r| <= |s| && r == s[|s| - |r|..]
    ensures forall i :: 0 <= i < |s| - |r| ==> s[i] == ' '
    ensures r == [] || r[0] != ' '
  {
    if |s| > 0 && s[0] == ' ' then LTrim(s[1..]) else s
  }

  predicate IsUpper(c: char)
  {
    'A' <= c <= 'Z'
  }

  /** Shifts one character of 'A'..'Z' to its lower-case counterpart. */
  function LowerChar(c: char): char
    requires IsUpper(c)
  {
    (c as int - 'A' as int + 'a' as int) as char
  }

  /** Lower-cases the ASCII letters and leaves every other character alone. */
  function ToLower(s: string): (r: string)
    ensures |r| == |s|
    ensures forall i :: 0 <= i < |s| && IsUpper(s[i]) ==> r[i] == LowerChar(s[i])
    ensures forall i :: 0 <= i < |s| && !IsUpper(s[i]) ==> r[i] == s[i]
  {
    if s == [] then []
    else [if IsUpper(s[0]) then LowerChar(s[0]) else s[0]] + ToLower(s[1..])
  }

  /** No upper-case letter survives, so lower-casing twice changes nothing. */
  lemma ToLowerIdempotent(s: string)
    ensures forall i :: 0 <= i < |s| ==> !IsUpper(ToLower(s)[i])
    ensures ToLower(ToLower(s)) == ToLower(s)
  {
  }

  predicate IsSpecial(c: char)
  {
    c in SpecialChars
  }

  predicate IsOperator(s: string)
  {
    s in Operators
  }

  predicate IsUnaryFunction(s: string)
  {
    s in UnaryFunctions
  }

  predicate IsBinaryFunction(s: string)
  {
    s in BinaryFunctions
  }

  /** A function name, possibly carrying one leading '-'. */
  predicate IsFunction(s: string)
  {
    if |s| > 0 && s[0] == '-' then IsBinaryFunction(s[1..]) || IsUnaryFunction(s[1..])
    else IsBinaryFunction(s) || IsUnaryFunction(s)
  }

  /** A constant name, possibly carrying one leading '-'. */
  predicate IsVariable(s: string)
  {
    var value := if |s| > 0 && s[0] == '-' then s[1..] else s;
    value in VariableNames
  }

  /** The strings classified as functions are exactly the three names,
      bare or with one leading '-'. */
  lemma FunctionSpellings(s: string)
    ensures IsFunction(s) <==> s in {"sin", "cos", "max", "-sin", "-cos", "-max"}
  {
    if |s| > 0 && s[0] == '-' {
      var name := s[1..];
      assert s == "-" + name;
      assert "-sin" == "-" + "sin" && "-cos" == "-" + "cos" && "-max" == "-" + "max";
      assert s !in {"sin", "cos", "max"};
    }
  }

  /** The strings classified as constants are exactly the three names,
      bare or with one leading '-'. */
  lemma VariableSpellings(s: string)
    ensures IsVariable(s) <==> s in {"pi", "e", "rc", "-pi", "-e", "-rc"}
  {
    if |s| > 0 && s[0] == '-' {
      var name := s[1..];
      assert s == "-" + name;
      assert "-pi" == "-" + "pi" && "-e" == "-" + "e" && "-rc" == "-" + "rc";
      assert s !in {"pi", "e", "rc"};
    }
  }

  /** Every operator is a single special character. */
  lemma OperatorsAreSpecial(s: string)
    requires IsOperator(s)
    ensures |s| == 1 && IsSpecial(s[0])
  {
  }

  /** No operator is a function or a constant name. */
  lemma OperatorsAreNotNames(s: string)
    requires IsOperator(s)
    ensures !IsFunction(s) && !IsVariable(s)
  {
    FunctionSpellings(s);
    VariableSpellings(s);
  }
}
