/** A reference semantics for the pipeline: arithmetic expression trees, their
    value under the usual rules, and their token forms.  The theorems here say
    that converting the infix tokens of a tree and reducing the result
    computes the tree's value, with `*` and `/` binding tighter than `+` and
    `-` and operators of equal precedence grouping to the left. */
module Expressions {
  import opened Outcomes
  import opened Tokens
  import opened Parser
  import opened ShuntingYard
  import opened Calculator

  datatype BinOp = Plus | Minus | Times | Over

  /** An expression tree; `Paren` is a pair of parentheses written around a
      subexpression that does not need them. */
  datatype Expr = Lit(v: real) | Bin(op: BinOp, lhs: Expr, rhs: Expr) | Paren(e: Expr)

  function Symbol(op: BinOp): char
  {
    match op
    case Plus => '+'
    case Minus => '-'
    case Times => '*'
    case Over => '/'
  }

  /** Arithmetic on reals, division by zero being an error. */
  function Apply(op: BinOp, a: real, b: real): Result<real>
  {
    match op
    case Plus => Ok(a + b)
    case Minus => Ok(a - b)
    case Times => Ok(a * b)
    case Over => if b == 0.0 then Err(DivisionByZero) else Ok(a / b)
  }

  /** The value of a tree, the left operand evaluated first. */
  function Eval(e: Expr): Result<real>
  {
    match e
    case Lit(v) => Ok(v)
    case Bin(op, l, r) =>
      var a :- Eval(l);
      var b :- Eval(r);
      Apply(op, a, b)
    case Paren(e') => Eval(e')
  }

  /** The operations table of the calculator agrees with the arithmetic of the
      reference semantics, left operand first. */
  lemma ApplyOpAgrees(op: BinOp, a: real, b: real)
    ensures ApplyOp(Symbol(op), a, b) == Apply(op, a, b)
  {}

  /** Binding strength: `+ -` bind less tightly than `* /`; literals and
      parenthesised subexpressions are atomic. */
  function Rank(op: BinOp): nat
  {
    match op
    case Plus => 1
    case Minus => 1
    case Times => 2
    case Over => 2
  }

  function Prec(e: Expr): nat
  {
    match e
    case Bin(op, _, _) => Rank(op)
    case _ => 3
  }

  /** The precedence table of the conversion ranks binary operators as `Rank`. */
  lemma RankAgrees(op: BinOp)
    ensures Symbol(op) in OpPrecedence && OpPrecedence[Symbol(op)] == Rank(op)
  {}

  /** `ts` in parentheses when `wrap` holds. */
  function Group(ts: seq<Token>, wrap: bool): seq<Token>
  {
    if wrap then [Op('(')] + ts + [Op(')')] else ts
  }

  /** A left operand needs parentheses when it binds less tightly than its
      operator; a right operand also when it binds equally tightly, since
      operators of equal precedence group to the left. */
  predicate WrapLeft(op: BinOp, l: Expr) { Prec(l) < Rank(op) }

  predicate WrapRight(op: BinOp, r: Expr) { Prec(r) <= Rank(op) }

  /** The infix tokens of a tree, with the parentheses its shape needs and the
      ones `Paren` adds. */
  function Infix(e: Expr): seq<Token>
  {
    match e
    case Lit(v) => [Num(v)]
    case Bin(op, l, r) => Group(Infix(l), WrapLeft(op, l)) + [Op(Symbol(op))] + Group(Infix(r), WrapRight(op, r))
    case Paren(e') => Group(Infix(e'), true)
  }

  /** The postfix tokens of a tree: operands first, then the operator. */
  function Postfix(e: Expr): seq<Token>
  {
    match e
    case Lit(v) => [Num(v)]
    case Bin(op, l, r) => Postfix(l) + Postfix(r) + [Op(Symbol(op))]
    case Paren(e') => Postfix(e')
  }

  // ---------------------------------------------------------------------------
  // Conversion

  /** The operators still stacked once the infix tokens of `e` are read: those
      along its right edge outside any parentheses, bottom first. */
  function Spine(e: Expr): seq<char>
  {
    match e
    case Bin(op, _, r) => [Symbol(op)] + (if WrapRight(op, r) then [] else Spine(r))
    case _ => []
  }

  /** The output produced while the infix tokens of `e` are read. */
  function Emitted(e: Expr): seq<Token>
  {
    match e
    case Lit(v) => [Num(v)]
    case Bin(op, l, r) => Postfix(l) + (if WrapRight(op, r) then Postfix(r) else Emitted(r))
    case Paren(e') => Postfix(e')
  }

  /** The stacked operators bind at least as tightly as `e` and rise towards
      the top. */
  lemma {:induction false} SpineRanked(e: Expr)
    ensures forall j :: 0 <= j < |Spine(e)| ==> Ranked(Spine(e)[j]) && OpPrecedence[Spine(e)[j]] >= Prec(e)
    ensures '(' !in Spine(e)
  {
    match e
    case Bin(op, _, r) =>
      RankAgrees(op);
      if !WrapRight(op, r) {
        SpineRanked(r);
      }
    case _ =>
  }

  lemma PoppedOnTop(pl: seq<Token>, er: seq<Token>, c: char, sr: seq<char>)
    ensures pl + er + Popped([c] + sr) == pl + (er + Popped(sr)) + [Op(c)]
  {
    PoppedAppend([c], sr);
    assert Popped([c]) == [Op(c)] by { assert [c][..0] == []; }
  }

  /** Draining the stacked operators completes the postfix form. */
  lemma {:induction false} EmittedThenSpine(e: Expr)
    ensures Postfix(e) == Emitted(e) + Popped(Spine(e))
  {
    match e
    case Lit(_) =>
    case Paren(_) =>
    case Bin(op, l, r) =>
      var sr := if WrapRight(op, r) then [] else Spine(r);
      var er := if WrapRight(op, r) then Postfix(r) else Emitted(r);
      if !WrapRight(op, r) {
        EmittedThenSpine(r);
      }
      assert Postfix(r) == er + Popped(sr);
      PoppedOnTop(Postfix(l), er, Symbol(op), sr);
  }

  lemma {:induction false} RunConcat(y: Yard, a: seq<Token>, b: seq<Token>)
    ensures Run(y, a + b) == match Run(y, a) case Ok(y') => Run(y', b) case Err(x) => Err(x)
    decreases |a|
  {
    if a == [] {
      assert a + b == b;
    } else {
      assert (a + b)[1..] == a[1..] + b;
      RunOne(y, a + b);
      RunOne(y, a);
      if Feed(y, a[0]).Ok? {
        RunConcat(Feed(y, a[0]).value, a[1..], b);
      }
    }
  }

  /** One round of the binary-operator step: a top that binds at least as
      tightly as `c` is popped, and a top that binds less stops it. */
  lemma PopWhileAtLeastRound(y: Yard, c: char)
    requires Ranked(c) && y.stack != [] && Ranked(y.stack[|y.stack| - 1])
    ensures OpPrecedence[y.stack[|y.stack| - 1]] >= OpPrecedence[c] ==>
      PopWhileAtLeast(y, c) == PopWhileAtLeast(MoveTop(y), c)
    ensures OpPrecedence[y.stack[|y.stack| - 1]] < OpPrecedence[c] ==> PopWhileAtLeast(y, c) == Ok(y)
  {
    assert GetTopPrecedence(y.stack) == Ok(OpPrecedence[y.stack[|y.stack| - 1]]);
    assert GetPrecedence(c) == Ok(OpPrecedence[c]);
  }

  /** One round of the `)` step: a top other than `(` is popped. */
  lemma PopUntilLeftParRound(y: Yard)
    requires y.stack != [] && y.stack[|y.stack| - 1] != '('
    ensures PopUntilLeftPar(y) == PopUntilLeftPar(MoveTop(y))
  {}

  /** Popping the top of `below + above` to the output. */
  lemma PopTopOf(out: seq<Token>, below: seq<char>, above: seq<char>)
    requires above != []
    ensures var top := above[|above| - 1];
      && (below + above)[|below + above| - 1] == top
      && MoveTop(Yard(out, below + above)) == Yard(out + [Op(top)], below + above[..|above| - 1])
      && out + [Op(top)] + Popped(above[..|above| - 1]) == out + Popped(above)
  {
    var n := |above|;
    var top, rest := above[n - 1], above[..n - 1];
    assert (below + above)[..|below| + n - 1] == below + rest;
    assert Popped(above) == [Op(top)] + Popped(rest);
    assert out + [Op(top)] + Popped(rest) == out + ([Op(top)] + Popped(rest));
  }

  /** The binary-operator step pops exactly the operators `above` that bind
      at least as tightly as `c`, and stops at a stack top that binds less. */
  lemma {:induction false} PopWhileAbove(out: seq<Token>, below: seq<char>, above: seq<char>, c: char)
    requires Ranked(c) && Beneath(below, OpPrecedence[c])
    requires forall j :: 0 <= j < |above| ==> Ranked(above[j]) && OpPrecedence[above[j]] >= OpPrecedence[c]
    ensures PopWhileAtLeast(Yard(out, below + above), c) == Ok(Yard(out + Popped(above), below))
    decreases |above|
  {
    if above == [] {
      assert below + above == below && out + Popped(above) == out;
      if below != [] {
        PopWhileAtLeastRound(Yard(out, below), c);
      }
    } else {
      var top := above[|above| - 1];
      PopTopOf(out, below, above);
      PopWhileAtLeastRound(Yard(out, below + above), c);
      PopWhileAbove(out + [Op(top)], below, above[..|above| - 1], c);
    }
  }

  /** The `)` step pops the operators above the nearest `(` and drops it. */
  lemma {:induction false} PopUntilLeftParAbove(out: seq<Token>, below: seq<char>, above: seq<char>)
    requires '(' !in above
    ensures PopUntilLeftPar(Yard(out, below + ['('] + above)) == Ok(Yard(out + Popped(above), below))
    decreases |above|
  {
    if above == [] {
      assert below + ['('] + above == below + ['('];
      assert (below + ['('])[..|below|] == below;
      assert out + Popped(above) == out;
    } else {
      var top := above[|above| - 1];
      PopTopOf(out, below + ['('], above);
      PopUntilLeftParRound(Yard(out, below + ['('] + above));
      PopUntilLeftParAbove(out + [Op(top)], below, above[..|above| - 1]);
    }
  }

  /** The top of the stack, if any, binds less tightly than `p`. */
  predicate Beneath(s: seq<char>, p: nat)
  {
    s == [] || (Ranked(s[|s| - 1]) && OpPrecedence[s[|s| - 1]] < p)
  }

  /** Reading one token is one pass of the main loop. */
  lemma RunSingle(y: Yard, t: Token)
    ensures Run(y, [t]) == Feed(y, t)
  {
    RunOne(y, [t]);
    assert [t][1..] == [];
  }

  /** Reading `a` and then `b`. */
  lemma RunThen(y: Yard, a: seq<Token>, b: seq<Token>, y': Yard, r: Result<Yard>)
    requires Run(y, a) == Ok(y') && Run(y', b) == r
    ensures Run(y, a + b) == r
  {
    RunConcat(y, a, b);
  }

  /** A parenthesised group: `(` is stacked, the inner tokens leave the
      operators `sp` above it, and `)` pops them, which completes the output
      `pf` of the group. */
  lemma RunParenthesised(out: seq<Token>, s: seq<char>, inner: seq<Token>, em: seq<Token>, sp: seq<char>, pf: seq<Token>)
    requires '(' !in sp && pf == em + Popped(sp)
    requires Run(Yard(out, s + ['(']), inner) == Ok(Yard(out + em, s + ['('] + sp))
    ensures Run(Yard(out, s), Group(inner, true)) == Ok(Yard(out + pf, s))
  {
    var open := Yard(out, s + ['(']);
    var after := Yard(out + em, s + ['('] + sp);
    var done := Yard(out + pf, s);
    RunSingle(Yard(out, s), Op('('));
    PopUntilLeftParAbove(out + em, s, sp);
    assert out + em + Popped(sp) == out + pf;
    RunSingle(after, Op(')'));
    RunThen(open, inner, [Op(')')], after, Ok(done));
    RunThen(Yard(out, s), [Op('(')], inner + [Op(')')], open, Ok(done));
    assert Group(inner, true) == [Op('(')] + (inner + [Op(')')]);
  }

  /** Reading the infix tokens of `e`, possibly in parentheses, on top of a
      stack that binds less tightly than `e`. */
  lemma {:induction false} RunGroup(out: seq<Token>, s: seq<char>, e: Expr, wrap: bool)
    requires AllRanked(s)
    requires wrap || Beneath(s, Prec(e))
    ensures wrap ==> Run(Yard(out, s), Group(Infix(e), wrap)) == Ok(Yard(out + Postfix(e), s))
    ensures !wrap ==> Run(Yard(out, s), Group(Infix(e), wrap)) == Ok(Yard(out + Emitted(e), s + Spine(e)))
    decreases e, if wrap then 3 else 2
  {
    if wrap {
      assert AllRanked(s + ['(']);
      RunGroup(out, s + ['('], e, false);
      SpineRanked(e);
      EmittedThenSpine(e);
      RunParenthesised(out, s, Infix(e), Emitted(e), Spine(e), Postfix(e));
    } else {
      RunInfix(out, s, e);
    }
  }

  lemma {:induction false} RunInfix(out: seq<Token>, s: seq<char>, e: Expr)
    requires AllRanked(s) && Beneath(s, Prec(e))
    ensures Run(Yard(out, s), Infix(e)) == Ok(Yard(out + Emitted(e), s + Spine(e)))
    decreases e, 1
  {
    match e
    case Lit(v) =>
      assert Run(Yard(out, s), [Num(v)]) == Run(Yard(out + [Num(v)], s), []);
      assert s + [] == s;
    case Paren(e') =>
      RunGroup(out, s, e', true);
      assert s + [] == s;
    case Bin(op, l, r) =>
      BinStep(out, s, op, l, r);
  }

  /** A binary operator after tokens that left the operators `sl` stacked,
      all binding at least as tightly as it, on a stack that binds less: it
      pops them all, which completes the output `pf`, and is stacked. */
  lemma RunOperator(out: seq<Token>, s: seq<char>, left: seq<Token>, el: seq<Token>, sl: seq<char>, st: seq<char>, c: char, pf: seq<Token>)
    requires Ranked(c) && Beneath(s, OpPrecedence[c]) && c != '(' && c != ')'
    requires forall j :: 0 <= j < |sl| ==> Ranked(sl[j]) && OpPrecedence[sl[j]] >= OpPrecedence[c]
    requires st == s + sl && pf == el + Popped(sl)
    requires Run(Yard(out, s), left) == Ok(Yard(out + el, st))
    ensures Run(Yard(out, s), left + [Op(c)]) == Ok(Yard(out + pf, s + [c]))
  {
    var after := Yard(out + el, st);
    PopWhileAbove(out + el, s, sl, c);
    assert out + el + Popped(sl) == out + pf;
    assert Feed(after, Op(c)) == Ok(Yard(out + pf, s + [c]));
    RunSingle(after, Op(c));
    RunThen(Yard(out, s), left, [Op(c)], after, Ok(Yard(out + pf, s + [c])));
  }

  /** The left operand of `op` and `op` itself: the operator pops whatever
      the operand left stacked, so the operand's whole postfix form is out,
      and then the operator is stacked. */
  lemma {:induction false} LeftThenOperator(out: seq<Token>, s: seq<char>, op: BinOp, l: Expr)
    requires AllRanked(s) && Beneath(s, Rank(op))
    ensures Run(Yard(out, s), Group(Infix(l), WrapLeft(op, l)) + [Op(Symbol(op))]) ==
      Ok(Yard(out + Postfix(l), s + [Symbol(op)]))
    decreases l, 4
  {
    var c := Symbol(op);
    var left := Group(Infix(l), WrapLeft(op, l));
    RankAgrees(op);
    RunGroup(out, s, l, WrapLeft(op, l));
    if WrapLeft(op, l) {
      RunOperator(out, s, left, Postfix(l), [], s, c, Postfix(l));
    } else {
      SpineRanked(l);
      EmittedThenSpine(l);
      RunOperator(out, s, left, Emitted(l), Spine(l), s + Spine(l), c, Postfix(l));
    }
  }

  /** The right operand read on top of the stacked operator `c`. */
  lemma RunRightOperand(y: Yard, a: seq<Token>, b: seq<Token>, out: seq<Token>, s: seq<char>, c: char,
                        pl: seq<Token>, x: seq<Token>, sr: seq<char>, st: seq<char>, em: seq<Token>, sp: seq<char>)
    requires Run(y, a) == Ok(Yard(out + pl, s + [c]))
    requires st == s + [c] + sr && Run(Yard(out + pl, s + [c]), b) == Ok(Yard(out + pl + x, st))
    requires em == pl + x && sp == [c] + sr
    ensures Run(y, a + b) == Ok(Yard(out + em, s + sp))
  {
    assert out + pl + x == out + em;
    assert st == s + sp;
    RunThen(y, a, b, Yard(out + pl, s + [c]), Ok(Yard(out + em, s + sp)));
  }

  /** The `Bin` case of `RunInfix`: the left operand and the operator, then
      the right operand on top of the stacked operator. */
  lemma {:induction false} BinStep(out: seq<Token>, s: seq<char>, op: BinOp, l: Expr, r: Expr)
    requires AllRanked(s) && Beneath(s, Rank(op))
    ensures Run(Yard(out, s), Infix(Bin(op, l, r))) ==
      Ok(Yard(out + Emitted(Bin(op, l, r)), s + Spine(Bin(op, l, r))))
    decreases Bin(op, l, r), 0
  {
    var c := Symbol(op);
    var wr := WrapRight(op, r);
    var leftOp := Group(Infix(l), WrapLeft(op, l)) + [Op(c)];
    var right := Group(Infix(r), wr);
    LeftThenOperator(out, s, op, l);
    RankAgrees(op);
    assert AllRanked(s + [c]);
    RunGroup(out + Postfix(l), s + [c], r, wr);
    if wr {
      RunRightOperand(Yard(out, s), leftOp, right, out, s, c, Postfix(l), Postfix(r), [], s + [c],
        Emitted(Bin(op, l, r)), Spine(Bin(op, l, r)));
    } else {
      RunRightOperand(Yard(out, s), leftOp, right, out, s, c, Postfix(l), Emitted(r), Spine(r), s + [c] + Spine(r),
        Emitted(Bin(op, l, r)), Spine(Bin(op, l, r)));
    }
    assert Infix(Bin(op, l, r)) == leftOp + right;
  }

  /** The conversion turns the infix tokens of a tree into its postfix tokens. */
  lemma ConvertInfix(e: Expr)
    ensures ToPostfix(Infix(e)) == Ok(Postfix(e))
  {
    RunInfix([], [], e);
    EmittedThenSpine(e);
    DrainAfter(Infix(e), Emitted(e), Spine(e), Postfix(e));
  }

  /** A `)` after the tokens of a whole tree has no `(` to match: the
      conversion fails with "mismatched parenthesis". */
  lemma ExtraCloseMismatched(e: Expr)
    ensures ToPostfix(Infix(e) + [Op(')')]) == Err(MismatchedParenthesis)
  {
    var after := Yard(Emitted(e), Spine(e));
    RunInfix([], [], e);
    assert [] + Emitted(e) == Emitted(e) && [] + Spine(e) == Spine(e);
    SpineRanked(e);
    PopUntilLeftParOk(after);
    RunSingle(after, Op(')'));
    RunThen(Yard([], []), Infix(e), [Op(')')], after, Err(MismatchedParenthesis));
  }

  lemma DrainAfter(ts: seq<Token>, em: seq<Token>, sp: seq<char>, pf: seq<Token>)
    requires Run(Yard([], []), ts) == Ok(Yard([] + em, [] + sp)) && pf == em + Popped(sp)
    ensures ToPostfix(ts) == Ok(pf)
  {
    assert [] + em == em && [] + sp == sp;
  }

  // ---------------------------------------------------------------------------
  // Reduction

  /** A pass over two numbers and an operator, preceded only by numbers,
      replaces the three by the value of the operation. */
  lemma ReduceOperation(p: seq<Token>, a: real, b: real, op: BinOp, rest: seq<Token>)
    requires forall j :: 0 <= j < |p| ==> p[j].Num?
    ensures Apply(op, a, b).Ok? ==>
      Reduce(p + [Num(a), Num(b), Op(Symbol(op))] + rest) == Reduce(p + [Num(Apply(op, a, b).value)] + rest)
    ensures Apply(op, a, b).Err? ==>
      Reduce(p + [Num(a), Num(b), Op(Symbol(op))] + rest) == Err(Apply(op, a, b).error)
  {
    var ts := p + [Num(a), Num(b), Op(Symbol(op))] + rest;
    var k := |p| + 2;
    FirstOperatorAt(ts, k);
    ApplyOpAgrees(op, a, b);
    if Apply(op, a, b).Ok? {
      var v := Apply(op, a, b).value;
      assert ReduceStep(ts) == Ok(ts[..k - 2] + [Num(v)] + ts[k + 1..]);
      assert ts[..k - 2] == p && ts[k + 1..] == rest;
    }
  }

  lemma RegroupLeft(p: seq<Token>, pl: seq<Token>, pr: seq<Token>, c: char, rest: seq<Token>)
    ensures p + (pl + pr + [Op(c)]) + rest == p + pl + (pr + [Op(c)] + rest)
  {}

  lemma RegroupRight(p: seq<Token>, a: real, pr: seq<Token>, c: char, rest: seq<Token>)
    ensures p + [Num(a)] + (pr + [Op(c)] + rest) == (p + [Num(a)]) + pr + ([Op(c)] + rest)
    ensures forall j :: 0 <= j < |p| && p[j].Num? ==> (p + [Num(a)])[j].Num?
  {}

  lemma RegroupOperation(p: seq<Token>, a: real, b: real, c: char, rest: seq<Token>)
    ensures (p + [Num(a)]) + [Num(b)] + ([Op(c)] + rest) == p + [Num(a), Num(b), Op(c)] + rest
  {}

  /** Reducing the postfix tokens of a tree, between numbers already reduced
      and tokens still to come, leaves the tree's value in their place. */
  lemma {:induction false} ReducePostfix(p: seq<Token>, e: Expr, rest: seq<Token>)
    requires forall j :: 0 <= j < |p| ==> p[j].Num?
    ensures Eval(e).Ok? ==> Reduce(p + Postfix(e) + rest) == Reduce(p + [Num(Eval(e).value)] + rest)
    ensures Eval(e).Err? ==> Reduce(p + Postfix(e) + rest) == Err(Eval(e).error)
    decreases e
  {
    match e
    case Lit(_) =>
    case Paren(e') =>
      ReducePostfix(p, e', rest);
    case Bin(op, l, r) =>
      var c := Symbol(op);
      assert Postfix(e) == Postfix(l) + Postfix(r) + [Op(c)];
      RegroupLeft(p, Postfix(l), Postfix(r), c, rest);
      ReducePostfix(p, l, Postfix(r) + [Op(c)] + rest);
      if Eval(l).Ok? {
        var a := Eval(l).value;
        RegroupRight(p, a, Postfix(r), c, rest);
        ReducePostfix(p + [Num(a)], r, [Op(c)] + rest);
        if Eval(r).Ok? {
          var b := Eval(r).value;
          RegroupOperation(p, a, b, c, rest);
          ReduceOperation(p, a, b, op, rest);
        }
      }
  }

  /** Reducing the postfix tokens of a tree yields its value, or the error its
      evaluation runs into. */
  lemma ReduceToValue(e: Expr)
    ensures Eval(e).Ok? ==> Reduce(Postfix(e)) == Ok([Num(Eval(e).value)])
    ensures Eval(e).Err? ==> Reduce(Postfix(e)) == Err(Eval(e).error)
  {
    ReducePostfix([], e, []);
    assert [] + Postfix(e) + [] == Postfix(e);
    if Eval(e).Ok? {
      assert [] + [Num(Eval(e).value)] + [] == [Num(Eval(e).value)];
    }
  }

  /** Conversion and reduction together compute the value of the tree the
      infix tokens spell. */
  lemma InfixComputesValue(e: Expr)
    ensures ToPostfix(Infix(e)).Ok?
    ensures Eval(e).Ok? ==> Reduce(ToPostfix(Infix(e)).value) == Ok([Num(Eval(e).value)])
    ensures Eval(e).Err? ==> Reduce(ToPostfix(Infix(e)).value) == Err(Eval(e).error)
  {
    ConvertInfix(e);
    ReduceToValue(e);
  }

  // ---------------------------------------------------------------------------
  // Order check

  /** Parentheses left out, numbers and binary operators alternate, starting
      and ending with a number. */
  predicate Alternating(np: seq<Token>)
  {
    && |np| % 2 == 1
    && (forall j :: 0 <= j < |np| && j % 2 == 0 ==> np[j].Num?)
    && (forall j :: 0 <= j < |np| && j % 2 == 1 ==> IsBinaryOperator(np[j]))
  }

  lemma NonParensGroup(ts: seq<Token>, wrap: bool)
    ensures NonParens(Group(ts, wrap)) == NonParens(ts)
  {
    if wrap {
      NonParensAppend([Op('(')] + ts, [Op(')')]);
      NonParensAppend([Op('(')], ts);
      NonParensSingle(Op('('));
      NonParensSingle(Op(')'));
    }
  }

  lemma AlternatingJoin(a: seq<Token>, t: Token, b: seq<Token>)
    requires Alternating(a) && IsBinaryOperator(t) && Alternating(b)
    ensures Alternating(a + [t] + b)
  {
    var s := a + [t] + b;
    forall j | 0 <= j < |s|
      ensures j % 2 == 0 ==> s[j].Num?
      ensures j % 2 == 1 ==> IsBinaryOperator(s[j])
    {
      if j > |a| {
        assert s[j] == b[j - |a| - 1];
        assert (j - |a| - 1) % 2 == j % 2;
      } else if j < |a| {
        assert s[j] == a[j];
      }
    }
  }

  lemma AlternatingAround(a: seq<Token>, t: Token, b: seq<Token>)
    requires Alternating(NonParens(a)) && IsBinaryOperator(t) && Alternating(NonParens(b))
    ensures Alternating(NonParens(a + [t] + b))
  {
    NonParensAppend(a + [t], b);
    NonParensAppend(a, [t]);
    NonParensSingle(t);
    AlternatingJoin(NonParens(a), t, NonParens(b));
  }

  /** The infix tokens of a tree, parentheses left out, alternate between
      numbers and binary operators. */
  lemma {:induction false} InfixAlternates(e: Expr)
    ensures Alternating(NonParens(Infix(e)))
  {
    match e
    case Lit(v) =>
      NonParensSingle(Num(v));
    case Bin(op, l, r) =>
      InfixAlternates(l);
      InfixAlternates(r);
      NonParensGroup(Infix(l), WrapLeft(op, l));
      NonParensGroup(Infix(r), WrapRight(op, r));
      AlternatingAround(Group(Infix(l), WrapLeft(op, l)), Op(Symbol(op)), Group(Infix(r), WrapRight(op, r)));
    case Paren(e') =>
      InfixAlternates(e');
      NonParensGroup(Infix(e'), true);
  }

  /** Alternating tokens pass the order check. */
  lemma AlternatingAccepted(ts: seq<Token>)
    requires Alternating(NonParens(ts))
    ensures !WrongOrder(ts)
  {
    var np := NonParens(ts);
    assert (|np| - 1) % 2 == 0;
    forall j, k | 0 <= j < k < |np| && k == j + 1
      ensures !(IsBinaryOperator(np[j]) && IsBinaryOperator(np[k]))
    {
      if j % 2 == 1 {
        assert k % 2 == 0;
      }
    }
  }

  /** The infix tokens of every tree pass the order check. */
  lemma InfixOrderAccepted(e: Expr)
    ensures !WrongOrder(Infix(e))
  {
    InfixAlternates(e);
    AlternatingAccepted(Infix(e));
  }
}
