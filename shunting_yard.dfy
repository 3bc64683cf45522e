/** Infix to postfix conversion (shunting_yard.h, shunting_yard.cpp):
    Dijkstra's shunting-yard algorithm over an operator stack and an output
    list.  The stack only ever holds operator tokens, so it is modelled by
    their characters, its top being the last element. */
module ShuntingYard {
  import opened Outcomes
  import opened Tokens

  /** `op_precedence_` */
  const OpPrecedence: map<char, nat> :=
    map['(' := 0, ')' := 0, '+' := 1, '-' := 1, '*' := 2, '/' := 2]

  /** The table ranks parentheses below `+` and `-`, and those below `*` and
      `/`; it is defined for exactly six characters. */
  lemma PrecedenceTable()
    ensures OpPrecedence.Keys == {'(', ')', '+', '-', '*', '/'}
    ensures OpPrecedence['('] == OpPrecedence[')'] == 0
    ensures OpPrecedence['+'] == OpPrecedence['-'] == 1
    ensures OpPrecedence['*'] == OpPrecedence['/'] == 2
    ensures forall c :: c in OpPrecedence && c != '(' && c != ')' ==> OpPrecedence[c] > OpPrecedence['(']
  {}

  /** `getPrecedence`: `unordered_map::at`, which fails on a missing key. */
  function GetPrecedence(op: char): (r: Result<nat>)
    ensures r.Ok? <==> op in OpPrecedence
    ensures r.Ok? ==> r.value == OpPrecedence[op]
    ensures r.Err? ==> r.error == UnknownOperator
  {
    if op in OpPrecedence then Ok(OpPrecedence[op]) else Err(UnknownOperator)
  }

  /** `getTopPrecedence`: the precedence of the operator on top of the stack. */
  function GetTopPrecedence(stack: seq<char>): (r: Result<nat>)
    requires stack != []
    ensures r == GetPrecedence(stack[|stack| - 1])
  {
    GetPrecedence(stack[|stack| - 1])
  }

  /** The state of the algorithm: the output so far and the operator stack. */
  datatype Yard = Yard(output: seq<Token>, stack: seq<char>)

  /** The tokens the stack `s` yields when popped empty, top first. */
  function Popped(s: seq<char>): (r: seq<Token>)
    ensures |r| == |s|
  {
    if s == [] then [] else [Op(s[|s| - 1])] + Popped(s[..|s| - 1])
  }

  /** The yard with the top operator moved to the output. */
  function MoveTop(y: Yard): Yard
    requires y.stack != []
  {
    Yard(y.output + [Op(y.stack[|y.stack| - 1])], y.stack[..|y.stack| - 1])
  }

  /** The `)` case: operators are moved to the output up to the nearest `(`,
      which is discarded; with no `(` on the stack the parenthesis is
      mismatched. */
  function PopUntilLeftPar(y: Yard): Result<Yard>
    decreases |y.stack|
  {
    if y.stack == [] then Err(MismatchedParenthesis)
    else if y.stack[|y.stack| - 1] == '(' then Ok(Yard(y.output, y.stack[..|y.stack| - 1]))
    else PopUntilLeftPar(MoveTop(y))
  }

  /** The binary-operator case before the push: while the stack is not empty
      and its top has at least the precedence of `op`, the top is moved to the
      output.  Both look-ups fail on a character missing from the table. */
  function PopWhileAtLeast(y: Yard, op: char): Result<Yard>
    decreases |y.stack|
  {
    if y.stack == [] then Ok(y)
    else
      var top :- GetTopPrecedence(y.stack);
      var p :- GetPrecedence(op);
      if top >= p then PopWhileAtLeast(MoveTop(y), op) else Ok(y)
  }

  /** One pass of the main loop. */
  function Feed(y: Yard, t: Token): Result<Yard>
  {
    match t
    case Num(_) => Ok(Yard(y.output + [t], y.stack))
    case Op(c) =>
      if c == '(' then Ok(Yard(y.output, y.stack + ['(']))
      else if c == ')' then PopUntilLeftPar(y)
      else
        var y' :- PopWhileAtLeast(y, c);
        Ok(Yard(y'.output, y'.stack + [c]))
  }

  /** The main loop over the tokens, from the yard `y`. */
  function Run(y: Yard, ts: seq<Token>): Result<Yard>
    decreases |ts|
  {
    if ts == [] then Ok(y)
    else
      var y' :- Feed(y, ts[0]);
      Run(y', ts[1..])
  }

  /** The final loop: every operator left on the stack goes to the output. */
  function Drain(y: Yard): seq<Token>
  {
    y.output + Popped(y.stack)
  }

  /** `performAlgorithm`, end to end. */
  function ToPostfix(ts: seq<Token>): Result<seq<Token>>
  {
    var y :- Run(Yard([], []), ts);
    Ok(Drain(y))
  }

  /** No tokens, no output. */
  lemma ToPostfixEmpty()
    ensures ToPostfix([]) == Ok([])
  {
    assert Run(Yard([], []), []) == Ok(Yard([], []));
    assert Drain(Yard([], [])) == [];
  }

  lemma RunOne(y: Yard, ts: seq<Token>)
    requires ts != []
    ensures Run(y, ts) == match Feed(y, ts[0]) case Ok(y') => Run(y', ts[1..]) case Err(e) => Err(e)
  {}

  method PerformAlgorithm(tokens: seq<Token>) returns (r: Result<seq<Token>>)
    ensures r == ToPostfix(tokens)
  {
    var operators: seq<char> := [];
    var output: seq<Token> := [];
    assert tokens[0..] == tokens;
    for i := 0 to |tokens|
      invariant Run(Yard([], []), tokens) == Run(Yard(output, operators), tokens[i..])
    {
      var token := tokens[i];
      ghost var y0 := Yard(output, operators);
      assert tokens[i..][1..] == tokens[i + 1..];
      RunOne(y0, tokens[i..]);
      if token.Num? {
        output := output + [token];
      } else {
        var op := token.c;
        if op == '(' {
          operators := operators + [token.c];
        } else if op == ')' {
          while operators != [] && operators[|operators| - 1] != '('
            invariant PopUntilLeftPar(y0) == PopUntilLeftPar(Yard(output, operators))
            decreases |operators|
          {
            output := output + [Op(operators[|operators| - 1])];
            operators := operators[..|operators| - 1];
          }
          if operators == [] {
            return Err(MismatchedParenthesis);
          }
          operators := operators[..|operators| - 1];
        } else {
          while operators != []
            invariant PopWhileAtLeast(y0, op) == PopWhileAtLeast(Yard(output, operators), op)
            decreases |operators|
          {
            var top := GetTopPrecedence(operators);
            if top.Err? {
              return Err(top.error);
            }
            var p := GetPrecedence(op);
            if p.Err? {
              return Err(p.error);
            }
            if top.value < p.value {
              break;
            }
            output := output + [Op(operators[|operators| - 1])];
            operators := operators[..|operators| - 1];
          }
          operators := operators + [op];
        }
      }
    }
    assert tokens[|tokens|..] == [];
    ghost var yEnd := Yard(output, operators);
    while operators != []
      invariant Drain(yEnd) == Drain(Yard(output, operators))
      decreases |operators|
    {
      output := output + [Op(operators[|operators| - 1])];
      operators := operators[..|operators| - 1];
    }
    assert Drain(Yard(output, [])) == output;
    return Ok(output);
  }

  // ---------------------------------------------------------------------------
  // The stack discipline

  /** A character the precedence table knows. */
  predicate Ranked(c: char)
  {
    c in OpPrecedence
  }

  predicate AllRanked(s: seq<char>)
  {
    forall j :: 0 <= j < |s| ==> Ranked(s[j])
  }

  /** On characters the table ranks, the binary-operator step cannot fail. */
  lemma {:induction false} PopWhileAtLeastOk(y: Yard, op: char)
    requires Ranked(op) && AllRanked(y.stack)
    ensures PopWhileAtLeast(y, op).Ok?
    decreases |y.stack|
  {
    if y.stack != [] && OpPrecedence[y.stack[|y.stack| - 1]] >= OpPrecedence[op] {
      assert AllRanked(MoveTop(y).stack);
      PopWhileAtLeastOk(MoveTop(y), op);
    }
  }

  /** The binary-operator step keeps a prefix of the stack ... */
  lemma {:induction false} PopWhileAtLeastKeeps(y: Yard, op: char)
    requires PopWhileAtLeast(y, op).Ok?
    ensures var k := |PopWhileAtLeast(y, op).value.stack|;
      k <= |y.stack| && PopWhileAtLeast(y, op).value.stack == y.stack[..k]
    decreases |y.stack|
  {
    var n := |y.stack|;
    if y.stack != [] && OpPrecedence[y.stack[n - 1]] >= OpPrecedence[op] {
      var m := MoveTop(y);
      PopWhileAtLeastKeeps(m, op);
      var k := |PopWhileAtLeast(m, op).value.stack|;
      assert m.stack[..k] == y.stack[..k];
    } else {
      assert y.stack[..n] == y.stack;
    }
  }

  /** ... and moves the rest to the output, top first. */
  lemma {:induction false} PopWhileAtLeastEmits(y: Yard, op: char)
    requires PopWhileAtLeast(y, op).Ok?
    ensures var k := |PopWhileAtLeast(y, op).value.stack|;
      k <= |y.stack| && PopWhileAtLeast(y, op).value.output == y.output + Popped(y.stack[k..])
    decreases |y.stack|
  {
    var n := |y.stack|;
    if y.stack != [] && OpPrecedence[y.stack[n - 1]] >= OpPrecedence[op] {
      var m := MoveTop(y);
      var top := y.stack[n - 1];
      assert PopWhileAtLeast(y, op) == PopWhileAtLeast(m, op);
      PopWhileAtLeastEmits(m, op);
      PopWhileAtLeastKeeps(m, op);
      var k := |PopWhileAtLeast(m, op).value.stack|;
      calc {
        PopWhileAtLeast(m, op).value.output;
        m.output + Popped(m.stack[k..]);
        (y.output + [Op(top)]) + Popped(m.stack[k..]);
        y.output + ([Op(top)] + Popped(m.stack[k..]));
        { PoppedPush(m.stack[k..], top); }
        y.output + Popped(m.stack[k..] + [top]);
        { assert y.stack[k..] == m.stack[k..] + [top]; }
        y.output + Popped(y.stack[k..]);
      }
    } else {
      assert y.stack[n..] == [];
    }
  }

  /** The binary-operator step pops exactly the operators above the topmost
      one ranked below `op`: everything popped had at least the precedence of
      `op` (so an equal one is popped, which makes operators of equal
      precedence left-associative), and the operator left on top, if any,
      ranks below it. */
  lemma {:induction false} PopWhileAtLeastStops(y: Yard, op: char)
    requires Ranked(op) && AllRanked(y.stack)
    ensures PopWhileAtLeast(y, op).Ok?
    ensures var k := |PopWhileAtLeast(y, op).value.stack|;
      && k <= |y.stack|
      && (forall j :: k <= j < |y.stack| ==> OpPrecedence[y.stack[j]] >= OpPrecedence[op])
      && (k > 0 ==> OpPrecedence[y.stack[k - 1]] < OpPrecedence[op])
    decreases |y.stack|
  {
    PopWhileAtLeastOk(y, op);
    PopWhileAtLeastKeeps(y, op);
    var n := |y.stack|;
    if y.stack != [] && OpPrecedence[y.stack[n - 1]] >= OpPrecedence[op] {
      var m := MoveTop(y);
      assert AllRanked(m.stack);
      PopWhileAtLeastStops(m, op);
      var k := |PopWhileAtLeast(m, op).value.stack|;
      assert forall j :: k <= j < n - 1 ==> m.stack[j] == y.stack[j];
    }
  }

  /** A `(` on the stack is never popped by a binary operator, since every
      binary operator ranks above it. */
  lemma LeftParSurvivesOperator(y: Yard, op: char)
    requires Ranked(op) && op != '(' && op != ')' && AllRanked(y.stack)
    ensures PopWhileAtLeast(y, op).Ok?
    ensures var y' := PopWhileAtLeast(y, op).value;
      forall j :: |y'.stack| <= j < |y.stack| ==> y.stack[j] != '('
  {
    PopWhileAtLeastStops(y, op);
  }

  /** The number of `(` in a stack. */
  function LeftPars(s: seq<char>): nat
  {
    if s == [] then 0 else LeftPars(s[..|s| - 1]) + (if s[|s| - 1] == '(' then 1 else 0)
  }

  /** The `)` step succeeds exactly when the stack holds a `(`, and fails
      with "mismatched parenthesis" otherwise. */
  lemma {:induction false} PopUntilLeftParOk(y: Yard)
    ensures PopUntilLeftPar(y).Ok? <==> '(' in y.stack
    ensures PopUntilLeftPar(y).Err? ==> PopUntilLeftPar(y).error == MismatchedParenthesis
    decreases |y.stack|
  {
    if y.stack != [] {
      var n := |y.stack|;
      assert y.stack == y.stack[..n - 1] + [y.stack[n - 1]];
      if y.stack[n - 1] != '(' {
        PopUntilLeftParOk(MoveTop(y));
      }
    }
  }

  /** The `)` step keeps the stack below the topmost `(` ... */
  lemma {:induction false} PopUntilLeftParKeeps(y: Yard)
    requires PopUntilLeftPar(y).Ok?
    ensures var k := |PopUntilLeftPar(y).value.stack|;
      && k < |y.stack| && PopUntilLeftPar(y).value.stack == y.stack[..k] && y.stack[k] == '('
      && (forall j :: k < j < |y.stack| ==> y.stack[j] != '(')
    decreases |y.stack|
  {
    var n := |y.stack|;
    if y.stack[n - 1] != '(' {
      var m := MoveTop(y);
      PopUntilLeftParKeeps(m);
      var k := |PopUntilLeftPar(m).value.stack|;
      assert m.stack[..k] == y.stack[..k];
      assert forall j :: k < j < n - 1 ==> m.stack[j] == y.stack[j];
    }
  }

  /** ... moves the operators above it to the output, top first, and drops
      the `(` itself. */
  lemma {:induction false} PopUntilLeftParEmits(y: Yard)
    requires PopUntilLeftPar(y).Ok?
    ensures var k := |PopUntilLeftPar(y).value.stack|;
      k < |y.stack| && PopUntilLeftPar(y).value.output == y.output + Popped(y.stack[k + 1..])
    decreases |y.stack|
  {
    var n := |y.stack|;
    if y.stack[n - 1] == '(' {
      assert y.stack[n..] == [];
    } else {
      var m := MoveTop(y);
      var top := y.stack[n - 1];
      assert PopUntilLeftPar(y) == PopUntilLeftPar(m);
      PopUntilLeftParEmits(m);
      var k := |PopUntilLeftPar(m).value.stack|;
      calc {
        PopUntilLeftPar(m).value.output;
        m.output + Popped(m.stack[k + 1..]);
        (y.output + [Op(top)]) + Popped(m.stack[k + 1..]);
        y.output + ([Op(top)] + Popped(m.stack[k + 1..]));
        { PoppedPush(m.stack[k + 1..], top); }
        y.output + Popped(m.stack[k + 1..] + [top]);
        { assert y.stack[k + 1..] == m.stack[k + 1..] + [top]; }
        y.output + Popped(y.stack[k + 1..]);
      }
    }
  }

  lemma PoppedPush(s: seq<char>, c: char)
    ensures Popped(s + [c]) == [Op(c)] + Popped(s)
  {
    assert (s + [c])[..|s|] == s;
  }

  lemma {:induction false} PoppedAppend(a: seq<char>, b: seq<char>)
    ensures Popped(a + b) == Popped(b) + Popped(a)
    decreases |b|
  {
    if b == [] {
      assert a + b == a;
    } else {
      var c := b[|b| - 1];
      var b' := b[..|b| - 1];
      assert b == b' + [c];
      calc {
        Popped(a + b);
        { assert a + b == (a + b') + [c]; }
        Popped((a + b') + [c]);
        { PoppedPush(a + b', c); }
        [Op(c)] + Popped(a + b');
        { PoppedAppend(a, b'); }
        [Op(c)] + (Popped(b') + Popped(a));
        ([Op(c)] + Popped(b')) + Popped(a);
        { PoppedPush(b', c); }
        Popped(b) + Popped(a);
      }
    }
  }

  lemma {:induction false} PoppedMembers(s: seq<char>, c: char)
    ensures Op(c) in Popped(s) <==> c in s
    ensures forall v :: Num(v) !in Popped(s)
    decreases |s|
  {
    if s != [] {
      PoppedMembers(s[..|s| - 1], c);
      assert s == s[..|s| - 1] + [s[|s| - 1]];
    }
  }

  // ---------------------------------------------------------------------------
  // What reaches the output

  /** The numbers of a token list, in order. */
  function Numbers(ts: seq<Token>): (r: seq<Token>)
    ensures forall j :: 0 <= j < |r| ==> r[j].Num?
  {
    if ts == [] then []
    else Numbers(ts[..|ts| - 1]) + (if ts[|ts| - 1].Num? then [ts[|ts| - 1]] else [])
  }

  lemma {:induction false} NumbersAppend(a: seq<Token>, b: seq<Token>)
    ensures Numbers(a + b) == Numbers(a) + Numbers(b)
    decreases |b|
  {
    if b == [] {
      assert a + b == a;
    } else {
      assert (a + b)[..|a + b| - 1] == a + b[..|b| - 1];
      NumbersAppend(a, b[..|b| - 1]);
    }
  }

  lemma {:induction false} NumbersPopped(s: seq<char>)
    ensures Numbers(Popped(s)) == []
    decreases |s|
  {
    if s != [] {
      NumbersAppend([Op(s[|s| - 1])], Popped(s[..|s| - 1]));
      assert Numbers([Op(s[|s| - 1])]) == [] by {
        assert [Op(s[|s| - 1])][..0] == [];
      }
      NumbersPopped(s[..|s| - 1]);
    }
  }

  /** The tokens of a yard that the output will hold once the stack is
      drained, parentheses left out. */
  function Content(y: Yard): multiset<Token>
  {
    multiset(NonParens(y.output)) + multiset(NonParens(Popped(y.stack)))
  }

  /** No `)` is ever pushed or output. */
  predicate NoRightPar(y: Yard)
  {
    Op(')') !in y.output && ')' !in y.stack
  }

  /** Pushing `c` onto the stack adds `Op(c)` to the content unless it is a
      parenthesis. */
  lemma PushContent(y: Yard, c: char)
    ensures Content(Yard(y.output, y.stack + [c])) == Content(y) + multiset(NonParens([Op(c)]))
  {
    PoppedPush(y.stack, c);
    NonParensAppend([Op(c)], Popped(y.stack));
  }

  /** The number a token contributes to the output, if it is one. */
  function NumberOf(t: Token): seq<Token>
  {
    if t.Num? then [t] else []
  }

  /** The token a token contributes to the content, unless it is a parenthesis. */
  function ItemOf(t: Token): multiset<Token>
  {
    if t.Num? || IsBinaryOperator(t) then multiset{t} else multiset{}
  }

  lemma NumbersCons(t: Token, ts: seq<Token>)
    ensures Numbers([t] + ts) == NumberOf(t) + Numbers(ts)
  {
    NumbersAppend([t], ts);
    assert [t][..0] == [];
  }

  lemma NonParensCons(t: Token, ts: seq<Token>)
    ensures multiset(NonParens([t] + ts)) == ItemOf(t) + multiset(NonParens(ts))
  {
    NonParensAppend([t], ts);
    assert [t][..0] == [];
  }

  /** Moving the operators `above` from the top of the stack to the output
      adds no number to the output ... */
  lemma TransferNumbers(out: seq<Token>, above: seq<char>)
    ensures Numbers(out + Popped(above)) == Numbers(out)
  {
    calc {
      Numbers(out + Popped(above));
      { NumbersAppend(out, Popped(above)); }
      Numbers(out) + Numbers(Popped(above));
      { NumbersPopped(above); }
      Numbers(out) + [];
      Numbers(out);
    }
  }

  /** ... and keeps the content. */
  lemma TransferContent(out: seq<Token>, lower: seq<char>, above: seq<char>)
    ensures Content(Yard(out + Popped(above), lower)) == Content(Yard(out, lower + above))
  {
    calc {
      Content(Yard(out + Popped(above), lower));
      multiset(NonParens(out + Popped(above))) + multiset(NonParens(Popped(lower)));
      { NonParensAppend(out, Popped(above)); }
      multiset(NonParens(out)) + multiset(NonParens(Popped(above))) + multiset(NonParens(Popped(lower)));
      { NonParensAppend(Popped(above), Popped(lower)); }
      multiset(NonParens(out)) + multiset(NonParens(Popped(above) + Popped(lower)));
      { PoppedAppend(lower, above); }
      multiset(NonParens(out)) + multiset(NonParens(Popped(lower + above)));
      Content(Yard(out, lower + above));
    }
  }

  /** The `)` step as a move of the operators above the topmost `(`. */
  lemma CloseSplit(y: Yard) returns (lower: seq<char>, above: seq<char>)
    requires PopUntilLeftPar(y).Ok?
    ensures y.stack == lower + ['('] + above && '(' !in above
    ensures PopUntilLeftPar(y).value == Yard(y.output + Popped(above), lower)
  {
    PopUntilLeftParKeeps(y);
    PopUntilLeftParEmits(y);
    var k := |PopUntilLeftPar(y).value.stack|;
    lower, above := y.stack[..k], y.stack[k + 1..];
    assert y.stack == lower + ['('] + above;
    assert forall j :: 0 <= j < |above| ==> above[j] == y.stack[k + 1 + j];
  }

  /** The binary-operator step as a move of the operators above a prefix. */
  lemma OperatorSplit(y: Yard, op: char) returns (lower: seq<char>, above: seq<char>)
    requires PopWhileAtLeast(y, op).Ok?
    ensures y.stack == lower + above
    ensures PopWhileAtLeast(y, op).value == Yard(y.output + Popped(above), lower)
  {
    PopWhileAtLeastKeeps(y, op);
    PopWhileAtLeastEmits(y, op);
    var k := |PopWhileAtLeast(y, op).value.stack|;
    lower, above := y.stack[..k], y.stack[k..];
    assert y.stack == lower + above;
  }

  lemma FeedNumbers(y: Yard, t: Token)
    requires Feed(y, t).Ok?
    ensures Numbers(Feed(y, t).value.output) == Numbers(y.output) + NumberOf(t)
  {
    if t.Num? {
      NumbersAppend(y.output, [t]);
      assert Numbers([t]) == [t] by { assert [t][..0] == []; }
    } else if t.c == '(' {
      assert Numbers(y.output) + [] == Numbers(y.output);
    } else if t.c == ')' {
      var lower, above := CloseSplit(y);
      TransferNumbers(y.output, above);
      assert Numbers(y.output) + [] == Numbers(y.output);
    } else {
      var lower, above := OperatorSplit(y, t.c);
      TransferNumbers(y.output, above);
      assert Numbers(y.output) + [] == Numbers(y.output);
    }
  }

  lemma CloseContent(y: Yard)
    requires PopUntilLeftPar(y).Ok?
    ensures Content(PopUntilLeftPar(y).value) == Content(y)
  {
    var lower, above := CloseSplit(y);
    var out := y.output + Popped(above);
    calc {
      Content(PopUntilLeftPar(y).value);
      Content(Yard(out, lower));
      { PushContent(Yard(out, lower), '(');
        assert NonParens([Op('(')]) == [] by { assert [Op('(')][..0] == []; } }
      Content(Yard(out, lower + ['(']));
      { TransferContent(y.output, lower + ['('], above); }
      Content(Yard(y.output, lower + ['('] + above));
      Content(y);
    }
  }

  lemma OperatorContent(y: Yard, op: char)
    requires PopWhileAtLeast(y, op).Ok? && op != '(' && op != ')'
    ensures var y' := PopWhileAtLeast(y, op).value;
      Content(Yard(y'.output, y'.stack + [op])) == Content(y) + multiset{Op(op)}
  {
    var lower, above := OperatorSplit(y, op);
    var out := y.output + Popped(above);
    calc {
      Content(Yard(out, lower + [op]));
      { PushContent(Yard(out, lower), op);
        assert NonParens([Op(op)]) == [Op(op)] by { assert [Op(op)][..0] == []; } }
      Content(Yard(out, lower)) + multiset{Op(op)};
      { TransferContent(y.output, lower, above); }
      Content(y) + multiset{Op(op)};
    }
  }

  lemma NumContent(y: Yard, t: Token)
    requires t.Num?
    ensures Content(Yard(y.output + [t], y.stack)) == Content(y) + multiset{t}
  {
    calc {
      Content(Yard(y.output + [t], y.stack));
      multiset(NonParens(y.output + [t])) + multiset(NonParens(Popped(y.stack)));
      { NonParensAppend(y.output, [t]);
        assert NonParens([t]) == [t] by { assert [t][..0] == []; } }
      multiset(NonParens(y.output)) + multiset{t} + multiset(NonParens(Popped(y.stack)));
      Content(y) + multiset{t};
    }
  }

  lemma OpenContent(y: Yard)
    ensures Content(Yard(y.output, y.stack + ['('])) == Content(y)
  {
    PushContent(y, '(');
    assert NonParens([Op('(')]) == [] by { assert [Op('(')][..0] == []; }
  }

  lemma FeedContent(y: Yard, t: Token)
    requires Feed(y, t).Ok?
    ensures Content(Feed(y, t).value) == Content(y) + ItemOf(t)
  {
    if t.Num? {
      NumContent(y, t);
    } else if t.c == '(' {
      OpenContent(y);
    } else if t.c == ')' {
      CloseContent(y);
    } else {
      OperatorContent(y, t.c);
    }
  }

  lemma FeedNoRightPar(y: Yard, t: Token)
    requires Feed(y, t).Ok? && NoRightPar(y)
    ensures NoRightPar(Feed(y, t).value)
  {
    if t.Op? && t.c == ')' {
      var lower, above := CloseSplit(y);
      PoppedMembers(above, ')');
      assert ')' !in above && ')' !in lower;
    } else if t.Op? && t.c != '(' {
      var lower, above := OperatorSplit(y, t.c);
      PoppedMembers(above, ')');
      assert ')' !in above && ')' !in lower;
    }
  }

  lemma {:induction false} RunNumbers(y: Yard, ts: seq<Token>)
    requires Run(y, ts).Ok?
    ensures Numbers(Run(y, ts).value.output) == Numbers(y.output) + Numbers(ts)
    decreases |ts|
  {
    if ts == [] {
      assert Numbers(y.output) + [] == Numbers(y.output);
    } else {
      var t, rest := ts[0], ts[1..];
      var y' := Feed(y, t).value;
      assert Run(y, ts) == Run(y', rest);
      calc {
        Numbers(Run(y, ts).value.output);
        { RunNumbers(y', rest); }
        Numbers(y'.output) + Numbers(rest);
        { FeedNumbers(y, t); }
        (Numbers(y.output) + NumberOf(t)) + Numbers(rest);
        Numbers(y.output) + (NumberOf(t) + Numbers(rest));
        { NumbersCons(t, rest); assert ts == [t] + rest; }
        Numbers(y.output) + Numbers(ts);
      }
    }
  }

  lemma {:induction false} RunContent(y: Yard, ts: seq<Token>)
    requires Run(y, ts).Ok?
    ensures Content(Run(y, ts).value) == Content(y) + multiset(NonParens(ts))
    decreases |ts|
  {
    if ts != [] {
      var t, rest := ts[0], ts[1..];
      var y' := Feed(y, t).value;
      RunContent(y', rest);
      FeedContent(y, t);
      assert ts == [t] + rest;
      NonParensCons(t, rest);
    }
  }

  lemma {:induction false} RunNoRightPar(y: Yard, ts: seq<Token>)
    requires Run(y, ts).Ok? && NoRightPar(y)
    ensures NoRightPar(Run(y, ts).value)
    decreases |ts|
  {
    if ts != [] {
      var y' := Feed(y, ts[0]).value;
      FeedNoRightPar(y, ts[0]);
      RunNoRightPar(y', ts[1..]);
    }
  }

  /** Every token a yard holds, parentheses included: the output and the
      operators on the stack. */
  function Holding(y: Yard): multiset<Token>
  {
    multiset(y.output) + multiset(Popped(y.stack))
  }

  /** Moving the operators `above` to the output keeps what the yard holds. */
  lemma TransferHolding(out: seq<Token>, lower: seq<char>, above: seq<char>)
    ensures Holding(Yard(out + Popped(above), lower)) == Holding(Yard(out, lower + above))
  {
    PoppedAppend(lower, above);
  }

  /** A pass of the loop adds at most the token read: a `)` is never kept and
      the `(` it matches is discarded. */
  lemma FeedHolding(y: Yard, t: Token)
    requires Feed(y, t).Ok?
    ensures Holding(Feed(y, t).value) <= Holding(y) + multiset{t}
  {
    if t.Op? && t.c == '(' {
      PoppedPush(y.stack, '(');
    } else if t.Op? && t.c == ')' {
      var lower, above := CloseSplit(y);
      TransferHolding(y.output, lower, above);
      PoppedAppend(lower + ['('], above);
      PoppedPush(lower, '(');
    } else if t.Op? {
      var lower, above := OperatorSplit(y, t.c);
      TransferHolding(y.output, lower, above);
      PoppedPush(lower, t.c);
    }
  }

  lemma {:induction false} RunHolding(y: Yard, ts: seq<Token>)
    requires Run(y, ts).Ok?
    ensures Holding(Run(y, ts).value) <= Holding(y) + multiset(ts)
    decreases |ts|
  {
    if ts != [] {
      var y' := Feed(y, ts[0]).value;
      FeedHolding(y, ts[0]);
      RunHolding(y', ts[1..]);
      assert ts == [ts[0]] + ts[1..];
    }
  }

  /** Numbers go straight to the output, so they keep their input order, and
      no other number is added. */
  lemma NumbersKeepOrder(ts: seq<Token>)
    requires ToPostfix(ts).Ok?
    ensures Numbers(ToPostfix(ts).value) == Numbers(ts)
  {
    var y := Run(Yard([], []), ts).value;
    RunNumbers(Yard([], []), ts);
    TransferNumbers(y.output, y.stack);
    assert [] + Numbers(ts) == Numbers(ts);
  }

  /** Every token other than a parenthesis reaches the output exactly as
      often as it occurs in the input, `)` never appears in the output, and
      no token, `(` included, appears in the output more often than in the
      input. */
  lemma OutputIsARearrangement(ts: seq<Token>)
    requires ToPostfix(ts).Ok?
    ensures multiset(NonParens(ToPostfix(ts).value)) == multiset(NonParens(ts))
    ensures Op(')') !in ToPostfix(ts).value
    ensures multiset(ToPostfix(ts).value) <= multiset(ts)
  {
    var y := Run(Yard([], []), ts).value;
    RunHolding(Yard([], []), ts);
    assert Holding(Yard([], [])) == multiset{};
    RunContent(Yard([], []), ts);
    RunNoRightPar(Yard([], []), ts);
    assert Content(Yard([], [])) == multiset{};
    calc {
      multiset(NonParens(Drain(y)));
      { NonParensAppend(y.output, Popped(y.stack)); }
      Content(y);
      multiset(NonParens(ts));
    }
    PoppedMembers(y.stack, ')');
  }

  // ---------------------------------------------------------------------------
  // Mismatched parentheses

  /** Opening minus closing parentheses. */
  function Depth(ts: seq<Token>): int
  {
    if ts == [] then 0 else Depth(ts[..|ts| - 1]) + (if ts[|ts| - 1] == Op('(') then 1 else if ts[|ts| - 1] == Op(')') then -1 else 0)
  }

  lemma {:induction false} DepthAppend(a: seq<Token>, b: seq<Token>)
    ensures Depth(a + b) == Depth(a) + Depth(b)
    decreases |b|
  {
    if b == [] {
      assert a + b == a;
    } else {
      assert (a + b)[..|a + b| - 1] == a + b[..|b| - 1];
      DepthAppend(a, b[..|b| - 1]);
    }
  }

  /** A token the precedence table can rank: a number or one of its six
      characters. */
  predicate RankedToken(t: Token)
  {
    t.Num? || Ranked(t.c)
  }

  /** Some prefix of `ts` closes more parentheses than the `d` already open
      and those it opens. */
  predicate Overdrawn(d: int, ts: seq<Token>)
  {
    exists k :: 0 < k <= |ts| && d + Depth(ts[..k]) < 0
  }

  lemma CloseDepth(y: Yard)
    requires AllRanked(y.stack)
    ensures PopUntilLeftPar(y).Err? <==> LeftPars(y.stack) == 0
    ensures PopUntilLeftPar(y).Err? ==> PopUntilLeftPar(y).error == MismatchedParenthesis
    ensures PopUntilLeftPar(y).Ok? ==> AllRanked(PopUntilLeftPar(y).value.stack)
    ensures PopUntilLeftPar(y).Ok? ==> LeftPars(PopUntilLeftPar(y).value.stack) + 1 == LeftPars(y.stack)
  {
    PopUntilLeftParOk(y);
    LeftParsZero(y.stack);
    if PopUntilLeftPar(y).Ok? {
      var lower, above := CloseSplit(y);
      assert forall j :: 0 <= j < |lower| ==> lower[j] == y.stack[j];
      calc {
        LeftPars(y.stack);
        LeftPars((lower + ['(']) + above);
        { LeftParsAppend(lower + ['('], above); }
        LeftPars(lower + ['(']) + LeftPars(above);
        { LeftParsZero(above); }
        LeftPars(lower + ['(']);
        { LeftParsAppend(lower, ['(']); assert ['('][..0] == []; }
        LeftPars(lower) + 1;
      }
    }
  }

  lemma OperatorDepth(y: Yard, op: char)
    requires Ranked(op) && op != '(' && op != ')' && AllRanked(y.stack)
    ensures PopWhileAtLeast(y, op).Ok?
    ensures var s := PopWhileAtLeast(y, op).value.stack + [op];
      AllRanked(s) && LeftPars(s) == LeftPars(y.stack)
  {
    LeftParSurvivesOperator(y, op);
    PopWhileAtLeastKeeps(y, op);
    var lower := PopWhileAtLeast(y, op).value.stack;
    KeptPrefixDepth(y.stack, |lower|);
    PushOperatorDepth(lower, op);
  }

  /** Cutting off a top part of the stack that holds no `(` keeps the count
      of `(`, and keeps the stack ranked. */
  lemma KeptPrefixDepth(s: seq<char>, k: nat)
    requires k <= |s| && AllRanked(s)
    requires forall j :: k <= j < |s| ==> s[j] != '('
    ensures LeftPars(s[..k]) == LeftPars(s) && AllRanked(s[..k])
  {
    var above := s[k..];
    assert s == s[..k] + above;
    assert forall j :: 0 <= j < |above| ==> above[j] == s[k + j];
    LeftParsZero(above);
    LeftParsAppend(s[..k], above);
  }

  /** Pushing a ranked operator other than `(` keeps the stack ranked and
      the count of `(`. */
  lemma PushOperatorDepth(s: seq<char>, op: char)
    requires AllRanked(s) && Ranked(op) && op != '('
    ensures AllRanked(s + [op]) && LeftPars(s + [op]) == LeftPars(s)
  {
    assert (s + [op])[..|s|] == s;
  }

  lemma FeedDepth(y: Yard, t: Token)
    requires RankedToken(t) && AllRanked(y.stack)
    ensures Feed(y, t).Err? <==> t == Op(')') && LeftPars(y.stack) == 0
    ensures Feed(y, t).Err? ==> Feed(y, t).error == MismatchedParenthesis
    ensures Feed(y, t).Ok? ==> AllRanked(Feed(y, t).value.stack)
    ensures Feed(y, t).Ok? ==> LeftPars(Feed(y, t).value.stack) == LeftPars(y.stack) + Depth([t])
  {
    assert [t][..0] == [];
    if t.Op? && t.c == '(' {
      LeftParsAppend(y.stack, ['(']);
      assert LeftPars(['(']) == 1 by { assert ['('][..0] == []; }
    } else if t.Op? && t.c == ')' {
      CloseDepth(y);
    } else if t.Op? {
      OperatorDepth(y, t.c);
    }
  }

  lemma {:induction false} LeftParsZero(s: seq<char>)
    ensures LeftPars(s) == 0 <==> '(' !in s
    decreases |s|
  {
    if s != [] {
      LeftParsZero(s[..|s| - 1]);
      assert s == s[..|s| - 1] + [s[|s| - 1]];
    }
  }

  lemma {:induction false} LeftParsAppend(a: seq<char>, b: seq<char>)
    ensures LeftPars(a + b) == LeftPars(a) + LeftPars(b)
    decreases |b|
  {
    if b == [] {
      assert a + b == a;
    } else {
      assert (a + b)[..|a + b| - 1] == a + b[..|b| - 1];
      LeftParsAppend(a, b[..|b| - 1]);
    }
  }

  /** With `d` parentheses open on the stack, the main loop fails exactly when
      some prefix of the rest closes more than are open, and then with
      "mismatched parenthesis". */
  lemma {:induction false} RunMismatch(y: Yard, ts: seq<Token>)
    requires AllRanked(y.stack)
    requires forall j :: 0 <= j < |ts| ==> RankedToken(ts[j])
    ensures Run(y, ts).Err? <==> Overdrawn(LeftPars(y.stack), ts)
    ensures Run(y, ts).Err? ==> Run(y, ts).error == MismatchedParenthesis
    decreases |ts|
  {
    if ts != [] {
      var t := ts[0];
      FeedDepth(y, t);
      if Feed(y, t).Err? {
        OverdrawnFirst(LeftPars(y.stack), ts);
      } else {
        var y' := Feed(y, t).value;
        RunMismatch(y', ts[1..]);
        OverdrawnStep(LeftPars(y.stack), ts);
      }
    }
  }

  /** A first token that closes more than are open overdraws at once. */
  lemma OverdrawnFirst(d: int, ts: seq<Token>)
    requires ts != [] && d + Depth([ts[0]]) < 0
    ensures Overdrawn(d, ts)
  {
    assert ts[..1] == [ts[0]];
  }

  /** When the first token leaves `d'` open, with `d' >= 0`, the line
      overdraws exactly when the rest does from `d'`. */
  lemma OverdrawnStep(d: int, ts: seq<Token>)
    requires ts != [] && d + Depth([ts[0]]) >= 0
    ensures Overdrawn(d, ts) <==> Overdrawn(d + Depth([ts[0]]), ts[1..])
  {
    var t, rest := ts[0], ts[1..];
    var d' := d + Depth([t]);
    forall k | 0 < k <= |ts|
      ensures d + Depth(ts[..k]) == d' + Depth(rest[..k - 1])
    {
      assert ts[..k] == [t] + rest[..k - 1];
      DepthAppend([t], rest[..k - 1]);
    }
    if Overdrawn(d', rest) {
      var k' :| 0 < k' <= |rest| && d' + Depth(rest[..k']) < 0;
      assert d + Depth(ts[..k' + 1]) < 0;
    }
    assert d + Depth(ts[..1]) >= 0 by {
      assert rest[..0] == [];
    }
    if Overdrawn(d, ts) {
      var k :| 0 < k <= |ts| && d + Depth(ts[..k]) < 0;
      assert d' + Depth(rest[..k - 1]) < 0;
    }
  }

  /** On tokens the table ranks, conversion fails exactly when some prefix
      of the input closes more parentheses than it opens ("1 + (1+5))"), and
      then with "mismatched parenthesis"; an unclosed `(` is no error here. */
  lemma ToPostfixMismatch(ts: seq<Token>)
    requires forall j :: 0 <= j < |ts| ==> RankedToken(ts[j])
    ensures ToPostfix(ts).Err? <==> exists k :: 0 < k <= |ts| && Depth(ts[..k]) < 0
    ensures ToPostfix(ts).Err? ==> ToPostfix(ts).error == MismatchedParenthesis
  {
    RunMismatch(Yard([], []), ts);
  }
}
