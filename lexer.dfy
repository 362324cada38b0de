/** The tokenizer: token classification, the scanner that splits the source
    text into tokens while tracking whether a '-' may start a negated atom,
    and the loop that turns the scanned strings into classified tokens. */
module Lexer {
  import opened Vocabulary
  import opened Helpers
  import ShuntingYard

  /** Classification in a fixed priority order: function name, number,
      constant, operator, parenthesis; anything else is a bad token.
      `isNumber` is the source's strtod-based number test. */
  function GetTokenType(token: string, isNumber: string -> bool): TokenType
  {
    if IsFunction(token) then FunctionToken
    else if isNumber(token) then NumberToken
    else if IsVariable(token) then VariableToken
    else if IsOperator(token) then OperatorToken
    else if token == "(" then OpenBToken
    else if token == ")" then CloseBToken
    else BadToken
  }

  /** What each kind means: a token is of a kind exactly when it fits that
      kind and no kind of higher priority. Function names, constant names
      and operators never overlap, so only the number test can shadow a
      later kind. */
  lemma ClassificationPriority(token: string, isNumber: string -> bool)
    ensures GetTokenType(token, isNumber) == FunctionToken <==> IsFunction(token)
    ensures GetTokenType(token, isNumber) == NumberToken <==> !IsFunction(token) && isNumber(token)
    ensures GetTokenType(token, isNumber) == VariableToken <==> IsVariable(token) && !isNumber(token)
    ensures GetTokenType(token, isNumber) == OperatorToken <==> IsOperator(token) && !isNumber(token)
    ensures GetTokenType(token, isNumber) == OpenBToken <==> token == "(" && !isNumber(token)
    ensures GetTokenType(token, isNumber) == CloseBToken <==> token == ")" && !isNumber(token)
    ensures GetTokenType(token, isNumber) == BadToken <==>
      !IsFunction(token) && !isNumber(token) && !IsVariable(token) && !IsOperator(token)
      && token != "(" && token != ")"
  {
    FunctionSpellings(token);
    VariableSpellings(token);
  }

  /** A lone '-' is the subtraction operator (strtod does not accept it). */
  lemma LoneMinusIsOperator(isNumber: string -> bool)
    requires !isNumber("-")
    ensures GetTokenType("-", isNumber) == OperatorToken
  {
    FunctionSpellings("-");
    VariableSpellings("-");
  }

  /** A negated constant is a constant token (strtod rejects "-pi"). */
  lemma NegatedConstantIsVariable(isNumber: string -> bool)
    requires !isNumber("-pi")
    ensures GetTokenType("-pi", isNumber) == VariableToken
  {
    FunctionSpellings("-pi");
    VariableSpellings("-pi");
  }

  /** A negated function name is a function token whatever the number test says. */
  lemma NegatedFunctionIsFunction(isNumber: string -> bool)
    ensures GetTokenType("-sin", isNumber) == FunctionToken
    ensures GetTokenType("-max", isNumber) == FunctionToken
  {
    FunctionSpellings("-sin");
    FunctionSpellings("-max");
  }

  /** There is no square-root entry: "sqrt" and "-sqrt" are bad tokens. */
  lemma SquareRootIsUnknown(isNumber: string -> bool)
    requires !isNumber("sqrt") && !isNumber("-sqrt")
    ensures GetTokenType("sqrt", isNumber) == BadToken
    ensures GetTokenType("-sqrt", isNumber) == BadToken
  {
    FunctionSpellings("sqrt");
    VariableSpellings("sqrt");
    FunctionSpellings("-sqrt");
    VariableSpellings("-sqrt");
  }

  // ---------------------------------------------------------------------
  // The scanner, as a function of the tokenizer's state

  /** One scanning step: the token returned, the source left behind and the
      new value of the allow-negative flag. */
  datatype Scan = Scan(token: string, rest: string, allowNegative: bool)

  /** The end of a negated run that starts at index 0: the first index from
      `from` on that holds a special character or a NUL, else the length. */
  function UnaryStop(s: string, from: nat): (stop: nat)
    requires from <= |s|
    ensures from <= stop <= |s|
    ensures stop < |s| ==> IsSpecial(s[stop]) || s[stop] == '\0'
    decreases |s| - from
  {
    if from == |s| || IsSpecial(s[from]) || s[from] == '\0' then from
    else UnaryStop(s, from + 1)
  }

  /** No special character and no NUL lies between `from` and the stop. */
  lemma {:induction false} UnaryStopSkipsOrdinary(s: string, from: nat)
    requires from <= |s|
    ensures forall k :: from <= k < UnaryStop(s, from) ==> !IsSpecial(s[k]) && s[k] != '\0'
    decreases |s| - from
  {
    if !(from == |s| || IsSpecial(s[from]) || s[from] == '\0') {
      UnaryStopSkipsOrdinary(s, from + 1);
    }
  }

  /** The first index from `from` on that holds a special character, if any. */
  function FirstSpecial(s: string, from: nat): (r: Option<nat>)
    requires from <= |s|
    ensures r.Some? ==> from <= r.value < |s| && IsSpecial(s[r.value])
    decreases |s| - from
  {
    if from == |s| then None
    else if IsSpecial(s[from]) then Some(from)
    else FirstSpecial(s, from + 1)
  }

  /** No special character lies between `from` and the first special one. */
  lemma {:induction false} FirstSpecialSkipsOrdinary(s: string, from: nat)
    requires from <= |s|
    ensures var r := FirstSpecial(s, from);
      forall k :: from <= k < |s| && (r.None? || k < r.value) ==> !IsSpecial(s[k])
    decreases |s| - from
  {
    if from < |s| && !IsSpecial(s[from]) {
      FirstSpecialSkipsOrdinary(s, from + 1);
    }
  }

  /** The next token of `source`: leading spaces are skipped; a '-' while the
      flag is set starts a negated run up to the next special character;
      any other special character is a token of its own (a '(' sets the
      flag); a run of ordinary characters ends at the next special character
      (clearing the flag) or at the end of the source. The token and the rest
      split the trimmed source, the token holds no space, and it is empty
      only when nothing but spaces is left. */
  function NextToken(source: string, allowNegative: bool): (r: Scan)
    ensures LTrim(source) == r.token + r.rest
    ensures r.token == [] <==> LTrim(source) == []
  {
    if source == "" then Scan("", "", allowNegative)
    else
      var s := LTrim(source);
      if |s| > 0 && s[0] == '-' && allowNegative then
        var stop := UnaryStop(s, 1);
        Split(s, stop);
        Scan(s[..stop], s[stop..], false)
      else if |s| > 0 && IsSpecial(s[0]) then
        Split(s, 1);
        Scan(s[..1], s[1..], if s[0] == '(' then true else allowNegative)
      else
        match FirstSpecial(s, 0)
        case Some(i) => Split(s, i); Scan(s[..i], s[i..], false)
        case None => Scan(s, "", allowNegative)
  }

  /** Cutting a string anywhere gives two halves that spell it. */
  lemma Split(s: string, i: nat)
    requires i <= |s|
    ensures s[..i] + s[i..] == s
  {
  }

  /** No token holds a space: the trimmed source starts with none, and runs
      stop at special characters, the space among them. */
  lemma TokenHasNoSpace(source: string, allowNegative: bool)
    ensures ' ' !in NextToken(source, allowNegative).token
  {
    if source != "" {
      var s := LTrim(source);
      if |s| > 0 && s[0] == '-' && allowNegative {
        NegatedRunHasNoSpace(source);
      } else if |s| > 0 && IsSpecial(s[0]) {
        assert NextToken(source, allowNegative).token == s[..1];
        PrefixHasNoSpace(s, 1, 1);
      } else {
        OrdinaryRunHasNoSpace(source, allowNegative);
      }
    }
  }

  lemma NegatedRunHasNoSpace(source: string)
    requires source != "" && |LTrim(source)| > 0 && LTrim(source)[0] == '-'
    ensures ' ' !in NextToken(source, true).token
  {
    var s := LTrim(source);
    assert NextToken(source, true).token == s[..UnaryStop(s, 1)];
    NegatedPrefixHasNoSpace(s);
  }

  lemma NegatedPrefixHasNoSpace(s: string)
    requires |s| > 0 && s[0] == '-'
    ensures ' ' !in s[..UnaryStop(s, 1)]
  {
    UnaryStopSkipsOrdinary(s, 1);
    PrefixHasNoSpace(s, 1, UnaryStop(s, 1));
  }

  lemma OrdinaryRunHasNoSpace(source: string, allowNegative: bool)
    requires source != ""
    requires var s := LTrim(source);
      !(|s| > 0 && s[0] == '-' && allowNegative) && !(|s| > 0 && IsSpecial(s[0]))
    ensures ' ' !in NextToken(source, allowNegative).token
  {
    var s := LTrim(source);
    var stop := if FirstSpecial(s, 0).Some? then FirstSpecial(s, 0).value else |s|;
    assert NextToken(source, allowNegative).token == s[..stop];
    OrdinaryPrefixHasNoSpace(s);
  }

  lemma OrdinaryPrefixHasNoSpace(s: string)
    ensures ' ' !in s[..if FirstSpecial(s, 0).Some? then FirstSpecial(s, 0).value else |s|]
  {
    FirstSpecialSkipsOrdinary(s, 0);
    PrefixHasNoSpace(s, 0, if FirstSpecial(s, 0).Some? then FirstSpecial(s, 0).value else |s|);
  }

  /** A prefix that starts with no space and then holds no special
      character holds no space at all. */
  lemma PrefixHasNoSpace(s: string, from: nat, stop: nat)
    requires from <= stop <= |s|
    requires forall k :: 0 <= k < from ==> s[k] != ' '
    requires forall k :: from <= k < stop ==> !IsSpecial(s[k])
    ensures ' ' !in s[..stop]
  {
    assert IsSpecial(' ');
    assert forall k :: 0 <= k < stop ==> s[..stop][k] == s[k];
  }

  /** The flag is raised only by a '(' and always by a '('. */
  lemma FlagRaisedOnlyByOpenParen(source: string, allowNegative: bool)
    ensures NextToken(source, allowNegative).token == "(" ==> NextToken(source, allowNegative).allowNegative
    ensures !allowNegative && NextToken(source, allowNegative).allowNegative ==>
      NextToken(source, allowNegative).token == "("
  {
  }

  /** While the flag is set, a leading '-' is folded into the following run,
      which stops at the next special character, NUL or the end; the flag
      then drops. */
  lemma UnaryMinusFolded(source: string, allowNegative: bool)
    requires allowNegative
    requires LTrim(source) != [] && LTrim(source)[0] == '-'
    ensures var r := NextToken(source, allowNegative);
      && r.token[0] == '-'
      && (forall k :: 1 <= k < |r.token| ==> !IsSpecial(r.token[k]) && r.token[k] != '\0')
      && (r.rest == [] || IsSpecial(r.rest[0]) || r.rest[0] == '\0')
      && !r.allowNegative
  {
    var s := LTrim(source);
    UnaryStopSkipsOrdinary(s, 1);
    var r := NextToken(source, allowNegative);
    assert r.token == s[..UnaryStop(s, 1)] && r.rest == s[UnaryStop(s, 1)..];
  }

  /** While the flag is clear, a leading '-' is the lone subtraction operator
      and the flag stays clear. */
  lemma BinaryMinusAlone(source: string, allowNegative: bool)
    requires !allowNegative
    requires LTrim(source) != [] && LTrim(source)[0] == '-'
    ensures NextToken(source, allowNegative) == Scan("-", LTrim(source)[1..], false)
  {
  }

  /** Special characters other than '(' and a folded '-' leave the flag as it was. */
  lemma OtherSpecialsKeepFlag(source: string, allowNegative: bool)
    requires LTrim(source) != [] && IsSpecial(LTrim(source)[0]) && LTrim(source)[0] != '('
    requires !(LTrim(source)[0] == '-' && allowNegative)
    ensures NextToken(source, allowNegative).token == [LTrim(source)[0]]
    ensures NextToken(source, allowNegative).allowNegative == allowNegative
  {
  }

  /** A run of ordinary characters that a special character ends clears the flag. */
  lemma RunEndedBySpecialClearsFlag(source: string, allowNegative: bool)
    requires LTrim(source) != [] && !IsSpecial(LTrim(source)[0])
    requires NextToken(source, allowNegative).rest != []
    ensures IsSpecial(NextToken(source, allowNegative).rest[0])
    ensures !NextToken(source, allowNegative).allowNegative
  {
  }

  /** The strings the tokenizer returns before it first returns "". */
  function Tokens(source: string, allowNegative: bool): seq<string>
    decreases |source|
  {
    var r := NextToken(source, allowNegative);
    if r.token == "" then [] else [r.token] + Tokens(r.rest, r.allowNegative)
  }

  /** The allow-negative flag once the tokenizer has returned "". */
  function FinalFlag(source: string, allowNegative: bool): bool
    decreases |source|
  {
    var r := NextToken(source, allowNegative);
    if r.token == "" then r.allowNegative else FinalFlag(r.rest, r.allowNegative)
  }

  function Concat(ts: seq<string>): string
  {
    if ts == [] then [] else ts[0] + Concat(ts[1..])
  }

  function RemoveSpaces(s: string): (r: string)
  {
    if s == [] then [] else (if s[0] == ' ' then [] else [s[0]]) + RemoveSpaces(s[1..])
  }

  lemma {:induction false} RemoveSpacesAppend(a: string, b: string)
    ensures RemoveSpaces(a + b) == RemoveSpaces(a) + RemoveSpaces(b)
  {
    if a == [] {
      assert a + b == b;
    } else {
      assert (a + b)[0] == a[0];
      assert (a + b)[1..] == a[1..] + b;
      RemoveSpacesAppend(a[1..], b);
    }
  }

  lemma {:induction false} RemoveSpacesNoSpace(s: string)
    requires ' ' !in s
    ensures RemoveSpaces(s) == s
  {
    if s != [] {
      RemoveSpacesNoSpace(s[1..]);
    }
  }

  lemma {:induction false} RemoveSpacesLTrim(s: string)
    ensures RemoveSpaces(LTrim(s)) == RemoveSpaces(s)
  {
    if |s| > 0 && s[0] == ' ' {
      RemoveSpacesLTrim(s[1..]);
    }
  }

  /** Scanning to the end always terminates, every token is nonempty and
      holds no space, and the tokens put together give back the source with
      all its spaces removed. */
  lemma {:induction false} TokensCoverSource(source: string, allowNegative: bool)
    ensures forall t :: t in Tokens(source, allowNegative) ==> t != [] && ' ' !in t
    ensures Concat(Tokens(source, allowNegative)) == RemoveSpaces(source)
    decreases |source|
  {
    var r := NextToken(source, allowNegative);
    RemoveSpacesLTrim(source);
    if r.token != "" {
      TokenHasNoSpace(source, allowNegative);
      TokensCoverSource(r.rest, r.allowNegative);
      RemoveSpacesAppend(r.token, r.rest);
      RemoveSpacesNoSpace(r.token);
    }
  }

  // ---------------------------------------------------------------------
  // Classification of the scanned strings

  function DropCommas(ts: seq<string>): (r: seq<string>)
    ensures forall t :: t in r ==> t in ts && t != ","
    ensures multiset(r) == multiset(ts)["," := 0]
  {
    if ts == [] then []
    else
      assert ts == [ts[0]] + ts[1..];
      if ts[0] == "," then DropCommas(ts[1..])
      else [ts[0]] + DropCommas(ts[1..])
  }

  function Values(tokens: seq<Token>): (r: seq<string>)
    ensures |r| == |tokens|
    ensures forall i :: 0 <= i < |tokens| ==> r[i] == tokens[i].value
  {
    if tokens == [] then [] else [tokens[0].value] + Values(tokens[1..])
  }

  /** The token list the tokenizer hands on: commas are dropped, every other
      string is classified, and the first bad string aborts with its text. */
  function ClassifyAll(ts: seq<string>, isNumber: string -> bool): Result<seq<Token>>
  {
    if ts == [] then Success([])
    else if ts[0] == "," then ClassifyAll(ts[1..], isNumber)
    else
      var kind := GetTokenType(ts[0], isNumber);
      if kind == BadToken then Failure(UnrecognizedToken(ts[0]))
      else
        match ClassifyAll(ts[1..], isNumber)
        case Success(rest) => Success([Token(ts[0], kind)] + rest)
        case Failure(e) => Failure(e)
  }

  /** Classification fails exactly when some string other than a comma is
      bad, and then names a bad string of the input. On success the values
      are the strings without the commas, in order, and each token carries
      its own classification, which is never bad. */
  lemma {:induction false} ClassifyAllMeaning(ts: seq<string>, isNumber: string -> bool)
    ensures ClassifyAll(ts, isNumber).Success?
      <==> forall i :: 0 <= i < |ts| && ts[i] != "," ==> GetTokenType(ts[i], isNumber) != BadToken
    ensures ClassifyAll(ts, isNumber).Success? ==> Values(ClassifyAll(ts, isNumber).value) == DropCommas(ts)
    ensures ClassifyAll(ts, isNumber).Success? ==> Classified(ClassifyAll(ts, isNumber).value, isNumber)
    ensures ClassifyAll(ts, isNumber).Failure? ==>
      var e := ClassifyAll(ts, isNumber).error;
      && e.UnrecognizedToken? && e.token in ts
      && e.token != "," && GetTokenType(e.token, isNumber) == BadToken
  {
    if ts != [] {
      ClassifyAllMeaning(ts[1..], isNumber);
      if ts[0] != "," && GetTokenType(ts[0], isNumber) != BadToken && ClassifyAll(ts[1..], isNumber).Success? {
        var rest := ClassifyAll(ts[1..], isNumber).value;
        var t := Token(ts[0], GetTokenType(ts[0], isNumber));
        assert Values([t] + rest) == [ts[0]] + Values(rest) by {
          assert ([t] + rest)[1..] == rest;
        }
        forall i | 0 <= i < |rest| + 1
          ensures ClassifiedToken(([t] + rest)[i], isNumber)
        {
          if i > 0 {
            assert ([t] + rest)[i] == rest[i - 1];
          }
        }
      }
      if ClassifyAll(ts, isNumber).Success? {
        forall i | 0 <= i < |ts| && ts[i] != ","
          ensures GetTokenType(ts[i], isNumber) != BadToken
        {
          if i > 0 {
            assert ts[i] == ts[1..][i - 1];
          }
        }
      }
    }
  }

  /** A token as the classifier hands it on: not a comma, not bad, and
      carrying the classification of its own text. */
  predicate ClassifiedToken(t: Token, isNumber: string -> bool)
  {
    t.value != "," && t.kind != BadToken && t.kind == GetTokenType(t.value, isNumber)
  }

  predicate Classified(tokens: seq<Token>, isNumber: string -> bool)
  {
    forall i :: 0 <= i < |tokens| ==> ClassifiedToken(tokens[i], isNumber)
  }

  /** Where the tokenizer is in the middle of its loop: the string it has
      just scanned, then everything the rest of the source will give. */
  function Pending(token: string, source: string, allowNegative: bool): seq<string>
  {
    if token == "" then [] else [token] + Tokens(source, allowNegative)
  }

  /** The final flag in the middle of the tokenizer's loop. */
  function PendingFlag(token: string, source: string, allowNegative: bool): bool
  {
    if token == "" then allowNegative else FinalFlag(source, allowNegative)
  }

  function Prepend(done: seq<Token>, r: Result<seq<Token>>): Result<seq<Token>>
  {
    match r
    case Success(ts) => Success(done + ts)
    case Failure(e) => Failure(e)
  }

  /** The token list is the next token and the token list of the rest, and
      the final flag is the rest's. */
  lemma TokensStep(source: string, allowNegative: bool)
    ensures var r := NextToken(source, allowNegative);
      && Tokens(source, allowNegative) == Pending(r.token, r.rest, r.allowNegative)
      && FinalFlag(source, allowNegative) == PendingFlag(r.token, r.rest, r.allowNegative)
      && (r.token == "" ==> r.rest == "")
      && |r.token| + |r.rest| <= |source|
  {
  }

  /** Where the tokenizer's loop stands, measured against its start: the
      classification of the whole source is the tokens kept so far followed
      by the classification of what is pending, and the final flag is the one
      the pending part leaves. */
  ghost predicate Resumes(source0: string, negative0: bool, isNumber: string -> bool,
                          kept: seq<Token>, token: string, source: string, allowNegative: bool)
  {
    && ClassifyAll(Tokens(source0, negative0), isNumber)
       == Prepend(kept, ClassifyAll(Pending(token, source, allowNegative), isNumber))
    && FinalFlag(source0, negative0) == PendingFlag(token, source, allowNegative)
    && (token == "" ==> source == "")
  }

  lemma ResumesFirst(source0: string, negative0: bool, isNumber: string -> bool)
    ensures var r := NextToken(source0, negative0);
      Resumes(source0, negative0, isNumber, [], r.token, r.rest, r.allowNegative)
  {
    TokensStep(source0, negative0);
    PrependNothing(ClassifyAll(Tokens(source0, negative0), isNumber));
  }

  /** Skipping a comma, or keeping a string that classifies, then scanning
      the next one. */
  lemma ResumesNext(source0: string, negative0: bool, isNumber: string -> bool,
                    kept: seq<Token>, token: string, source: string, allowNegative: bool)
    requires Resumes(source0, negative0, isNumber, kept, token, source, allowNegative)
    requires token != "" && (token == "," || GetTokenType(token, isNumber) != BadToken)
    ensures var kept' := if token == "," then kept else kept + [Token(token, GetTokenType(token, isNumber))];
      var r := NextToken(source, allowNegative);
      && Resumes(source0, negative0, isNumber, kept', r.token, r.rest, r.allowNegative)
      && |r.token| + |r.rest| <= |source|
  {
    TokensStep(source, allowNegative);
    ClassifyCons(token, Tokens(source, allowNegative), isNumber);
    if token != "," {
      PrependTwice(kept, [Token(token, GetTokenType(token, isNumber))], ClassifyAll(Tokens(source, allowNegative), isNumber));
    }
  }

  /** A string that does not classify ends the whole classification. */
  lemma ResumesBad(source0: string, negative0: bool, isNumber: string -> bool,
                   kept: seq<Token>, token: string, source: string, allowNegative: bool)
    requires Resumes(source0, negative0, isNumber, kept, token, source, allowNegative)
    requires token != "" && token != "," && GetTokenType(token, isNumber) == BadToken
    ensures ClassifyAll(Tokens(source0, negative0), isNumber) == Failure(UnrecognizedToken(token))
  {
    ClassifyCons(token, Tokens(source, allowNegative), isNumber);
  }

  /** Once the tokenizer returns "", everything has been kept. */
  lemma ResumesLast(source0: string, negative0: bool, isNumber: string -> bool,
                    kept: seq<Token>, source: string, allowNegative: bool)
    requires Resumes(source0, negative0, isNumber, kept, "", source, allowNegative)
    ensures ClassifyAll(Tokens(source0, negative0), isNumber) == Success(kept)
    ensures FinalFlag(source0, negative0) == allowNegative && source == ""
  {
    assert kept + [] == kept;
  }

  lemma PrependNothing(r: Result<seq<Token>>)
    ensures Prepend([], r) == r
  {
    if r.Success? {
      assert [] + r.value == r.value;
    }
  }

  lemma PrependTwice(a: seq<Token>, b: seq<Token>, r: Result<seq<Token>>)
    ensures Prepend(a, Prepend(b, r)) == Prepend(a + b, r)
  {
    if r.Success? {
      assert a + (b + r.value) == (a + b) + r.value;
    }
  }

  /** Classifying one more string in front: a comma is skipped, a bad
      string fails with its text, anything else is put in front. */
  lemma ClassifyCons(token: string, rest: seq<string>, isNumber: string -> bool)
    ensures ClassifyAll([token] + rest, isNumber) ==
      if token == "," then ClassifyAll(rest, isNumber)
      else if GetTokenType(token, isNumber) == BadToken then Failure(UnrecognizedToken(token))
      else Prepend([Token(token, GetTokenType(token, isNumber))], ClassifyAll(rest, isNumber))
  {
    assert ([token] + rest)[0] == token && ([token] + rest)[1..] == rest;
  }

  /** The RPN of a source text, from the given scanner state. */
  function RpnOf(source: string, allowNegative: bool, isNumber: string -> bool): Result<seq<Token>>
  {
    match ClassifyAll(Tokens(source, allowNegative), isNumber)
    case Failure(e) => Failure(e)
    case Success(tokens) =>
      ClassifyAllMeaning(Tokens(source, allowNegative), isNumber);
      OperatorTokensKnown(tokens, isNumber);
      ShuntingYard.ToRpn(tokens)
  }

  /** Classified operator tokens are entries of the operator table. */
  lemma OperatorTokensKnown(tokens: seq<Token>, isNumber: string -> bool)
    requires Classified(tokens, isNumber)
    ensures ShuntingYard.Known(tokens)
  {
    forall i | 0 <= i < |tokens|
      ensures ShuntingYard.KnownToken(tokens[i])
    {
      assert ClassifiedToken(tokens[i], isNumber);
    }
  }

  // ---------------------------------------------------------------------
  // The tokenizer object

  class Tokenizer {
    var source: string
    var allowNegative: bool
    const isNumber: string -> bool

    constructor (source: string, isNumber: string -> bool)
      ensures this.source == source && allowNegative && this.isNumber == isNumber
    {
      this.source := source;
      this.allowNegative := true;
      this.isNumber := isNumber;
    }

    /** Consumes and returns the next token. */
    method GetNextToken() returns (token: string)
      modifies this
      ensures NextToken(old(source), old(allowNegative)) == Scan(token, source, allowNegative)
    {
      if source == "" {
        return "";
      }
      source := LTrim(source);
      token := source;
      if |source| > 0 && source[0] == '-' && allowNegative {
        allowNegative := false;
        var stop := 1;
        while stop < |source| && !IsSpecial(source[stop]) && source[stop] != '\0'
          invariant 1 <= stop <= |source|
          invariant UnaryStop(source, stop) == UnaryStop(source, 1)
        {
          stop := stop + 1;
        }
        token := source[..stop];
        source := source[stop..];
        return;
      }
      if |source| > 0 && IsSpecial(source[0]) {
        if source[0] == '(' {
          allowNegative := true;
        }
        token := source[..1];
        source := source[1..];
        return;
      } else {
        for i := 0 to |source|
          invariant FirstSpecial(source, i) == FirstSpecial(source, 0)
        {
          if IsSpecial(source[i]) {
            token := source[..i];
            source := source[i..];
            allowNegative := false;
            return;
          }
        }
      }
      source := "";
    }

    /** Scans the whole source into classified tokens, dropping commas and
      failing on the first bad token. */
    method GetRpnTokens() returns (r: Result<seq<Token>>)
      modifies this
      ensures r == ClassifyAll(Tokens(old(source), old(allowNegative)), isNumber)
      ensures r.Success? ==> source == "" && allowNegative == FinalFlag(old(source), old(allowNegative))
    {
      var tokens: seq<Token> := [];
      var token := GetNextToken();
      ResumesFirst(old(source), old(allowNegative), isNumber);
      while token != ""
        invariant Resumes(old(source), old(allowNegative), isNumber, tokens, token, source, allowNegative)
        decreases |source| + |token|
      {
        ghost var kept, scanned, before, wasNegative := tokens, token, source, allowNegative;
        if token != "," {
          var kind := GetTokenType(token, isNumber);
          if kind == BadToken {
            ResumesBad(old(source), old(allowNegative), isNumber, tokens, token, source, allowNegative);
            return Failure(UnrecognizedToken(token));
          }
          tokens := tokens + [Token(token, kind)];
        }
        token := GetNextToken();
        ResumesNext(old(source), old(allowNegative), isNumber, kept, scanned, before, wasNegative);
      }
      ResumesLast(old(source), old(allowNegative), isNumber, tokens, source, allowNegative);
      return Success(tokens);
    }

    /** Tokenizes the source and converts it to postfix order. */
    method BuildRpn() returns (r: Result<seq<Token>>)
      modifies this
      ensures r == RpnOf(old(source), old(allowNegative), isNumber)
      ensures r.Success? ==> source == "" && allowNegative == FinalFlag(old(source), old(allowNegative))
    {
      var tokens := GetRpnTokens();
      if tokens.Failure? {
        return Failure(tokens.error);
      }
      ClassifyAllMeaning(Tokens(old(source), old(allowNegative)), isNumber);
      OperatorTokensKnown(tokens.value, isNumber);
      r := ShuntingYard.Convert(tokens.value);
    }
  }
}
