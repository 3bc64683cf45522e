/** The postfix reducer (calculator.h, calculator.cpp): the table of binary
    operations and `Calculate`, which runs the tokenizer and the shunting-yard
    conversion and then reduces the postfix list in place, always at its first
    operator, until at most one token is left. */
module Calculator {
  import opened Outcomes
  import opened Tokens
  import opened Parser
  import opened ShuntingYard

  /** The characters `ops_` has a function for. */
  const OpsKeys: set<char> := {'+', '-', '*', '/'}

  /** `ops_.at(op)(lhs, rhs)`: the look-up fails on a character missing from
      the table, and division fails on a zero divisor. */
  function ApplyOp(op: char, lhs: real, rhs: real): (r: Result<real>)
    ensures r.Ok? <==> op in OpsKeys && !(op == '/' && rhs == 0.0)
    ensures r.Err? && op in OpsKeys ==> r.error == DivisionByZero
    ensures r.Err? && op !in OpsKeys ==> r.error == UnknownOperator
  {
    if op == '+' then Ok(lhs + rhs)
    else if op == '-' then Ok(lhs - rhs)
    else if op == '*' then Ok(lhs * rhs)
    else if op == '/' then (if rhs == 0.0 then Err(DivisionByZero) else Ok(lhs / rhs))
    else Err(UnknownOperator)
  }

  /** The table has no function for the parentheses, which the shunting-yard
      stage can leave in its output. */
  lemma NoFunctionForParentheses(lhs: real, rhs: real)
    ensures ApplyOp('(', lhs, rhs) == Err(UnknownOperator)
    ensures ApplyOp(')', lhs, rhs) == Err(UnknownOperator)
  {}

  /** `std::find_if` with `Is<Operator>`: the position of the first operator. */
  function FirstOperator(ts: seq<Token>): (r: Option<nat>)
    ensures r.Some? ==> r.value < |ts| && ts[r.value].Op?
    ensures r.Some? ==> forall j :: 0 <= j < r.value ==> ts[j].Num?
    ensures r.None? ==> forall j :: 0 <= j < |ts| ==> ts[j].Num?
    decreases |ts|
  {
    if ts == [] then None
    else if ts[0].Op? then Some(0)
    else
      match FirstOperator(ts[1..])
      case None => None
      case Some(k) => Some(k + 1)
  }

  /** The contract of `FirstOperator` pins its result down: an operator at `k`
      with only numbers before it is the first operator. */
  lemma {:induction false} FirstOperatorAt(ts: seq<Token>, k: nat)
    requires k < |ts| && ts[k].Op?
    requires forall j :: 0 <= j < k ==> ts[j].Num?
    ensures FirstOperator(ts) == Some(k)
    decreases k
  {
    if k > 0 {
      FirstOperatorAt(ts[1..], k - 1);
    }
  }

  /** A list of numbers only has no operator. */
  lemma {:induction false} FirstOperatorNone(ts: seq<Token>)
    requires forall j :: 0 <= j < |ts| ==> ts[j].Num?
    ensures FirstOperator(ts) == None
    decreases |ts|
  {
    if ts != [] {
      FirstOperatorNone(ts[1..]);
    }
  }

  /** The search loop of `find_if`. */
  method FindOperator(ts: seq<Token>) returns (pos: Option<nat>)
    ensures pos == FirstOperator(ts)
  {
    var i := 0;
    while i < |ts| && ts[i].Num?
      invariant 0 <= i <= |ts|
      invariant forall j :: 0 <= j < i ==> ts[j].Num?
      decreases |ts| - i
    {
      i := i + 1;
    }
    if i == |ts| {
      FirstOperatorNone(ts);
      pos := None;
    } else {
      FirstOperatorAt(ts, i);
      pos := Some(i);
    }
  }

  /** The errors a pass of the reduction loop can raise.  "Lhs or rhs is not a
      number" is not among them: both operands come before the first operator,
      so they are always numbers. */
  predicate StepError(e: Error)
  {
    e == OperatorNotFound || e == LhsNotFound || e == UnknownOperator || e == DivisionByZero
  }

  /** One pass of the `while` loop of `Calculate`: find the first operator,
      take the two tokens before it as right and left operand, overwrite the
      left one with the result and erase the right one and the operator. */
  function ReduceStep(ts: seq<Token>): (r: Result<seq<Token>>)
    ensures r == Err(OperatorNotFound) <==> FirstOperator(ts).None? || FirstOperator(ts) == Some(0)
    ensures r == Err(LhsNotFound) <==> FirstOperator(ts) == Some(1)
    ensures r.Err? ==> StepError(r.error)
    ensures r.Ok? ==>
      FirstOperator(ts).Some? &&
      var k := FirstOperator(ts).value;
      2 <= k && |r.value| == |ts| - 2 &&
      ApplyOp(ts[k].c, ts[k - 2].v, ts[k - 1].v).Ok? &&
      r.value[..k - 2] == ts[..k - 2] &&
      r.value[k - 2] == Num(ApplyOp(ts[k].c, ts[k - 2].v, ts[k - 1].v).value) &&
      r.value[k - 1..] == ts[k + 1..]
  {
    match FirstOperator(ts)
    case None => Err(OperatorNotFound)
    case Some(k) =>
      if k == 0 then Err(OperatorNotFound)
      else if k == 1 then Err(LhsNotFound)
      else if !(ts[k - 2].Num? && ts[k - 1].Num?) then Err(NotANumber)
      else
        var v :- ApplyOp(ts[k].c, ts[k - 2].v, ts[k - 1].v);
        Ok(ts[..k - 2] + [SetDouble(ts[k - 2], v)] + ts[k + 1..])
  }

  /** A pass needs at least three tokens: two operands and an operator. */
  lemma ReduceStepNeedsThree(ts: seq<Token>)
    requires ReduceStep(ts).Ok?
    ensures |ts| >= 3
  {
    var k := FirstOperator(ts).value;
    assert 2 <= k < |ts|;
  }

  /** The whole loop: passes until at most one token is left.  Each pass
      removes two tokens, so a successful reduction of a non-empty list ends
      with exactly one token, and after at least one pass that token is a
      number. */
  function Reduce(ts: seq<Token>): (r: Result<seq<Token>>)
    ensures |ts| <= 1 ==> r == Ok(ts)
    ensures r.Ok? ==> |r.value| <= 1 && (r.value == [] <==> ts == [])
    ensures r.Ok? && |ts| > 1 ==> r.value[0].Num?
    ensures r.Err? ==> StepError(r.error)
    decreases |ts|
  {
    if |ts| <= 1 then Ok(ts)
    else
      var ts' :- ReduceStep(ts);
      ReduceStepNeedsThree(ts);
      Reduce(ts')
  }

  /** `Calculate`, end to end: tokenize, convert to postfix, reduce, and take
      the front token; an empty list yields nothing. */
  function Evaluate(expr: string): Result<Option<Token>>
  {
    var tokens :- Tokenize(expr);
    var postfix :- ToPostfix(tokens);
    var rest :- Reduce(postfix);
    if rest == [] then Ok(None) else Ok(Some(rest[0]))
  }

  /** A failing pass ends the reduction with its error. */
  lemma ReduceFailsWith(ts: seq<Token>)
    requires |ts| > 1 && ReduceStep(ts).Err?
    ensures Reduce(ts) == Err(ReduceStep(ts).error)
  {}

  /** A pass at the operator `k`: both operands are numbers, and the
      reduction fails with the operation's error or goes on from the list
      with the operation applied. */
  lemma ReducePass(ts: seq<Token>, k: nat)
    requires |ts| > 1 && FirstOperator(ts) == Some(k) && k >= 2
    ensures ts[k - 2].Num? && ts[k - 1].Num?
    ensures ApplyOp(ts[k].c, ts[k - 2].v, ts[k - 1].v).Err? ==>
      Reduce(ts) == Err(ApplyOp(ts[k].c, ts[k - 2].v, ts[k - 1].v).error)
    ensures ApplyOp(ts[k].c, ts[k - 2].v, ts[k - 1].v).Ok? ==>
      Reduce(ts) == Reduce(ts[..k - 2] + [SetDouble(ts[k - 2], ApplyOp(ts[k].c, ts[k - 2].v, ts[k - 1].v).value)] + ts[k + 1..])
  {}

  /** `Calculate`: the pipeline, then the reduction loop over a list that is
      changed in place. */
  method Calculate(expr: string) returns (r: Result<Option<Token>>)
    ensures r == Evaluate(expr)
  {
    var tokens := ParseLine(expr);
    if tokens.Err? {
      return Err(tokens.error);
    }
    var converted := PerformAlgorithm(tokens.value);
    if converted.Err? {
      return Err(converted.error);
    }
    var output := converted.value;
    while |output| > 1
      invariant Reduce(converted.value) == Reduce(output)
      decreases |output|
    {
      var pos := FindOperator(output);
      if pos.None? || pos.value == 0 {
        ReduceFailsWith(output);
        return Err(OperatorNotFound);
      }
      var k := pos.value;
      var rhs := TryAsDouble(output[k - 1]);
      if k - 1 == 0 {
        ReduceFailsWith(output);
        return Err(LhsNotFound);
      }
      var lhs := TryAsDouble(output[k - 2]);
      ReducePass(output, k);
      // Both operands precede the first operator, so both are numbers and the
      // "Lhs or rhs is not a number" branch cannot be taken.
      assert lhs.Some? && rhs.Some?;
      var value := ApplyOp(output[k].c, lhs.value, rhs.value);
      if value.Err? {
        return Err(value.error);
      }
      output := output[..k - 2] + [SetDouble(output[k - 2], value.value)] + output[k + 1..];
    }
    if output == [] {
      return Ok(None);
    }
    return Ok(Some(output[0]));
  }

  /** The postfix form of a non-empty token list that passes the order check
      is not empty, and if it is a single token that token is a number. */
  lemma PostfixShape(ts: seq<Token>)
    requires ts != [] && !WrongOrder(ts) && ToPostfix(ts).Ok?
    ensures ToPostfix(ts).value != []
    ensures |ToPostfix(ts).value| == 1 ==> ToPostfix(ts).value[0].Num?
  {
    var p := ToPostfix(ts).value;
    var np := NonParens(ts);
    OutputIsARearrangement(ts);
    assert np[|np| - 1] in multiset(NonParens(p));
    if |p| == 1 {
      assert p == [p[0]];
      NonParensSingle(p[0]);
    }
  }

  /** On the tokens of a line, the conversion fails only on a mismatched
      parenthesis, and exactly when some prefix closes more parentheses than
      it opens. */
  lemma ConvertTokenized(expr: string)
    requires Tokenize(expr).Ok?
    ensures var ts := Tokenize(expr).value;
      ToPostfix(ts).Err? <==> exists k :: 0 < k <= |ts| && Depth(ts[..k]) < 0
    ensures ToPostfix(Tokenize(expr).value).Err? ==> ToPostfix(Tokenize(expr).value).error == MismatchedParenthesis
  {
    var ts := Tokenize(expr).value;
    TokenizeShape(expr);
    forall j | 0 <= j < |ts|
      ensures RankedToken(ts[j])
    {
      assert InAlphabet(ts[j]);
    }
    ToPostfixMismatch(ts);
  }

  /** A line evaluates to nothing exactly when it holds no tokens. */
  lemma EvaluateNothing(expr: string)
    ensures Evaluate(expr) == Ok(None) <==> Tokenize(expr) == Ok([])
  {
    if Tokenize(expr) == Ok([]) {
      ToPostfixEmpty();
    } else if Tokenize(expr).Ok? && ToPostfix(Tokenize(expr).value).Ok? {
      TokenizeShape(expr);
      PostfixShape(Tokenize(expr).value);
    }
  }

  /** A line that evaluates to a token evaluates to a number, never to an
      operator. */
  lemma EvaluateYieldsNumber(expr: string)
    requires Evaluate(expr).Ok? && Evaluate(expr).value.Some?
    ensures Evaluate(expr).value.value.Num?
  {
    var ts := Tokenize(expr).value;
    TokenizeShape(expr);
    if ts != [] {
      PostfixShape(ts);
    } else {
      ToPostfixEmpty();
    }
  }

  /** An empty or blank line evaluates to nothing, without failing. */
  lemma EvaluateBlank(expr: string)
    requires forall j :: 0 <= j < |expr| ==> IsBlank(expr[j])
    ensures Evaluate(expr) == Ok(None)
  {
    TokenizeBlank(expr);
    EvaluateNothing(expr);
  }

  /** The failures `Calculate` can raise: every error kind except the failed
      variant access and "Lhs or rhs is not a number". */
  lemma EvaluateErrors(expr: string)
    requires Evaluate(expr).Err?
    ensures Evaluate(expr).error in
      {ForbiddenSymbols, MultipleFloatingPoints, InvalidNumber, WrongTokenAfterNegativeSign, MisorderedTokens,
       MismatchedParenthesis, OperatorNotFound, LhsNotFound, UnknownOperator, DivisionByZero}
  {
    TokenizeShape(expr);
    if Tokenize(expr).Ok? {
      ConvertTokenized(expr);
    }
  }
}
