/** Printing expression trees as lines of calculator input, and reading them
    back.  A token list spells a line: numbers as their decimal digits,
    operators as their characters, nothing in between.  When no two numbers
    meet and no rule of `parseLine` applies (no sign where a sign is one, no
    `*` to insert), the line tokenizes back to the list.  The infix tokens of
    a tree with natural literals are such a list, so a printed tree
    tokenizes to its infix tokens and evaluates to its value. */
module Printing {
  import opened Outcomes
  import opened Tokens
  import opened Parser
  import opened LineRules
  import opened Calculator
  import opened Expressions

  predicate IsNatural(v: real)
  {
    0.0 <= v && IsInteger(v)
  }

  /** A token a line can spell: a natural number or an operator character. */
  predicate Spellable(t: Token)
  {
    if t.Num? then IsNatural(t.v) else t.c in OperatorSymbols
  }

  predicate AllSpellable(ts: seq<Token>)
  {
    forall i :: 0 <= i < |ts| ==> Spellable(ts[i])
  }

  /** The text of a token: the decimal digits of a number, the character of
      an operator. */
  function TokenText(t: Token): (s: string)
    requires Spellable(t)
    ensures s != []
  {
    if t.Num? then NatToString(t.v.Floor) else [t.c]
  }

  /** The line a token list spells. */
  function Spell(ts: seq<Token>): string
    requires AllSpellable(ts)
  {
    if ts == [] then [] else TokenText(ts[0]) + Spell(ts[1..])
  }

  /** The segments of that line, one per token. */
  function Texts(ts: seq<Token>): seq<string>
    requires AllSpellable(ts)
  {
    if ts == [] then [] else [TokenText(ts[0])] + Texts(ts[1..])
  }

  /** The type `parseToken` gives the text of a token. */
  function KindOf(t: Token): TokenType
    requires Spellable(t)
  {
    if t.Num? then Number else SymbolType(t.c)
  }

  /** After a token of type `prev`, `t` is read as itself: it is no sign
      where a sign is one, and no `*` goes before it. */
  predicate Fits(prev: TokenType, first: bool, t: Token)
    requires Spellable(t)
  {
    var k := KindOf(t);
    && (IsSign(k) ==> !first && prev != LeftPar)
    && (k == LeftPar ==> prev != Number && prev != RightPar)
    && (k == Number ==> prev != RightPar)
  }

  predicate Closer(t: Token) { t.Num? || t == Op(')') }

  predicate Opener(t: Token) { t.Num? || t == Op('(') }

  /** The neighbours infix tokens have: the end of an operand before a binary
      operator or `)`, a binary operator or `(` before the start of an
      operand. */
  predicate Follows(a: Token, b: Token)
  {
    || (Closer(a) && (IsBinaryOperator(b) || b == Op(')')))
    || ((IsBinaryOperator(a) || a == Op('(')) && Opener(b))
  }

  predicate Adjacent(ts: seq<Token>)
  {
    forall i :: 0 < i < |ts| ==> Follows(ts[i - 1], ts[i])
  }

  // ---------------------------------------------------------------------------
  // Tokens read back from their texts

  /** The decimal digits of a natural number denote it. */
  lemma {:induction false} DigitsOfNat(n: nat)
    ensures DigitsValue(NatToString(n)) == n
    decreases n
  {
    var s := NatToString(n);
    if n < 10 {
      assert s[..0] == [];
    } else {
      var x := NatToString(n / 10);
      assert s == x + [DigitChar(n % 10)];
      assert s[..|s| - 1] == x;
      DigitsOfNat(n / 10);
    }
  }

  /** The text of a token parses to that token. */
  lemma TokenTextParses(t: Token)
    requires Spellable(t)
    ensures Parseable(TokenText(t))
    ensures ParseTokenSpec(TokenText(t)) == Ok(Lexeme(t, KindOf(t)))
  {
    if t.Num? {
      var n: nat := t.v.Floor;
      ParseIntegerLiteral(NatToString(n));
      DigitsOfNat(n);
    } else {
      ParseOperator(t.c);
    }
  }

  lemma FollowsFits(a: Token, b: Token)
    requires Spellable(a) && Spellable(b) && Follows(a, b)
    ensures Fits(KindOf(a), false, b)
  {}

  /** The segments of a spelled list rewrite to the list when each token fits
      where it stands. */
  lemma {:induction false} RewriteTexts(ts: seq<Token>, prev: TokenType, first: bool)
    requires AllSpellable(ts) && Adjacent(ts) && (ts != [] ==> Fits(prev, first, ts[0]))
    ensures AllParseable(Texts(ts))
    ensures Rewrite(Texts(ts), prev, first) == Ok(ts)
    decreases |ts|
  {
    if ts != [] {
      var t, rest := ts[0], ts[1..];
      var segs := Texts(ts);
      assert AllSpellable(rest) && Adjacent(rest) by {
        forall i | 0 < i < |rest| ensures Follows(rest[i - 1], rest[i]) {
          assert rest[i - 1] == ts[i] && rest[i] == ts[i + 1];
        }
      }
      if rest != [] {
        assert Follows(ts[0], ts[1]);
        FollowsFits(t, rest[0]);
      }
      RewriteTexts(rest, KindOf(t), false);
      TokenTextParses(t);
      assert segs == [TokenText(t)] + Texts(rest);
      assert segs[0] == TokenText(t) && segs[1..] == Texts(rest);
      assert [] + [t] == [t];
      assert [t] + rest == ts;
    }
  }

  /** The text of a segment is one segment. */
  lemma SegmentsTokenText(t: Token)
    requires Spellable(t)
    ensures Segments(TokenText(t)) == [TokenText(t)]
  {
    if t.Num? {
      var s := TokenText(t);
      assert IsDigit(s[0]);
      SegmentsWhole(s);
    } else {
      SegmentsOperator(t.c, []);
      assert [t.c] + [] == [t.c];
    }
  }

  lemma SpellHead(ts: seq<Token>)
    requires AllSpellable(ts) && ts != [] && ts[0].Op?
    ensures Spell(ts) != [] && Spell(ts)[0] == ts[0].c
  {}

  /** The segments of a spelled list are the texts of its tokens, as long as
      no two numbers meet. */
  lemma {:induction false} SegmentsSpell(ts: seq<Token>)
    requires AllSpellable(ts) && Adjacent(ts)
    ensures Segments(Spell(ts)) == Texts(ts)
    decreases |ts|
  {
    if ts == [] {
      assert Spell(ts) == [];
    } else {
      var t, rest := ts[0], ts[1..];
      assert AllSpellable(rest) && Adjacent(rest) by {
        forall i | 0 < i < |rest| ensures Follows(rest[i - 1], rest[i]) {
          assert rest[i - 1] == ts[i] && rest[i] == ts[i + 1];
        }
      }
      if rest != [] {
        assert Follows(ts[0], ts[1]);
        if t.Num? {
          SpellHead(rest);
        }
      }
      SegmentsAppend(TokenText(t), Spell(rest));
      SegmentsTokenText(t);
      SegmentsSpell(rest);
    }
  }

  /** A spelled line holds only digits and operators. */
  lemma {:induction false} SpellAdmissible(ts: seq<Token>)
    requires AllSpellable(ts)
    ensures !HasForbiddenSymbol(Spell(ts))
    decreases |ts|
  {
    if ts != [] {
      var s := TokenText(ts[0]);
      NotForbidden(s) by {
        if ts[0].Num? {
          forall j | 0 <= j < |s| ensures IsDigit(s[j]) {}
        }
      }
      SpellAdmissible(ts[1..]);
      ForbiddenAppend(s, Spell(ts[1..]));
    }
  }

  /** A token list that the rewriting rules leave alone and whose order is
      right tokenizes back from the line it spells. */
  lemma TokenizeSpell(ts: seq<Token>)
    requires AllSpellable(ts) && Adjacent(ts) && (ts != [] ==> Fits(NoType, true, ts[0]))
    requires !WrongOrder(ts)
    ensures Tokenize(Spell(ts)) == Ok(ts)
  {
    SpellAdmissible(ts);
    SegmentsSpell(ts);
    RewriteTexts(ts, NoType, true);
  }

  // ---------------------------------------------------------------------------
  // Trees

  predicate NaturalLiterals(e: Expr)
  {
    match e
    case Lit(v) => IsNatural(v)
    case Bin(_, l, r) => NaturalLiterals(l) && NaturalLiterals(r)
    case Paren(e') => NaturalLiterals(e')
  }

  /** `s` in parentheses when `wrap` holds. */
  function Bracket(s: string, wrap: bool): string
  {
    if wrap then "(" + s + ")" else s
  }

  /** The line of a tree: literals as decimal digits, operators as their
      characters, and the parentheses its shape needs and `Paren` adds. */
  function Text(e: Expr): string
    requires NaturalLiterals(e)
  {
    match e
    case Lit(v) => NatToString(v.Floor)
    case Bin(op, l, r) => Bracket(Text(l), WrapLeft(op, l)) + [Symbol(op)] + Bracket(Text(r), WrapRight(op, r))
    case Paren(e') => "(" + Text(e') + ")"
  }

  lemma {:induction false} SpellAppend(a: seq<Token>, b: seq<Token>)
    requires AllSpellable(a) && AllSpellable(b)
    ensures AllSpellable(a + b) && Spell(a + b) == Spell(a) + Spell(b)
    decreases |a|
  {
    if a == [] {
      assert a + b == b;
    } else {
      AppendTail(a, b);
      SpellAppend(a[1..], b);
      AppendAssoc(TokenText(a[0]), Spell(a[1..]), Spell(b));
    }
  }

  lemma SpellSingle(t: Token)
    requires Spellable(t)
    ensures Spell([t]) == TokenText(t)
  {
    assert [t][1..] == [];
  }

  lemma SpellGroup(ts: seq<Token>, wrap: bool)
    requires AllSpellable(ts)
    ensures AllSpellable(Group(ts, wrap)) && Spell(Group(ts, wrap)) == Bracket(Spell(ts), wrap)
  {
    if wrap {
      SpellSingle(Op('('));
      SpellSingle(Op(')'));
      SpellAppend([Op('(')], ts);
      SpellAppend([Op('(')] + ts, [Op(')')]);
    }
  }

  /** The infix tokens of a tree spell its line. */
  lemma {:induction false} SpellInfix(e: Expr)
    requires NaturalLiterals(e)
    ensures AllSpellable(Infix(e)) && Spell(Infix(e)) == Text(e)
  {
    match e
    case Lit(v) =>
      SpellSingle(Num(v));
    case Bin(op, l, r) =>
      SpellInfix(l);
      SpellInfix(r);
      var gl, gr := Group(Infix(l), WrapLeft(op, l)), Group(Infix(r), WrapRight(op, r));
      SpellGroup(Infix(l), WrapLeft(op, l));
      SpellGroup(Infix(r), WrapRight(op, r));
      SpellSingle(Op(Symbol(op)));
      SpellAppend(gl, [Op(Symbol(op))]);
      SpellAppend(gl + [Op(Symbol(op))], gr);
    case Paren(e') =>
      SpellInfix(e');
      SpellGroup(Infix(e'), true);
  }

  lemma AdjacentAppend(a: seq<Token>, b: seq<Token>)
    requires Adjacent(a) && Adjacent(b)
    requires a != [] && b != [] ==> Follows(a[|a| - 1], b[0])
    ensures Adjacent(a + b)
  {
    var s := a + b;
    forall i | 0 < i < |s| ensures Follows(s[i - 1], s[i]) {
      if i < |a| {
        assert s[i - 1] == a[i - 1] && s[i] == a[i];
      } else if i == |a| {
        assert s[i - 1] == a[|a| - 1] && s[i] == b[0];
      } else {
        assert s[i - 1] == b[i - 1 - |a|] && s[i] == b[i - |a|];
      }
    }
  }

  /** The shape of an operand's tokens: it starts with a number or `(`, ends
      with a number or `)`, and its neighbours follow one another. */
  predicate OperandShape(ts: seq<Token>)
  {
    ts != [] && Opener(ts[0]) && Closer(ts[|ts| - 1]) && Adjacent(ts)
  }

  lemma GroupShape(ts: seq<Token>, wrap: bool)
    requires OperandShape(ts)
    ensures OperandShape(Group(ts, wrap))
  {
    if wrap {
      AdjacentAppend([Op('(')], ts);
      AdjacentAppend([Op('(')] + ts, [Op(')')]);
    }
  }

  lemma {:induction false} InfixShape(e: Expr)
    ensures OperandShape(Infix(e))
  {
    match e
    case Lit(v) =>
    case Bin(op, l, r) =>
      InfixShape(l);
      InfixShape(r);
      var gl, gr := Group(Infix(l), WrapLeft(op, l)), Group(Infix(r), WrapRight(op, r));
      var o := Op(Symbol(op));
      GroupShape(Infix(l), WrapLeft(op, l));
      GroupShape(Infix(r), WrapRight(op, r));
      AdjacentAppend(gl, [o]);
      AdjacentAppend(gl + [o], gr);
    case Paren(e') =>
      InfixShape(e');
      GroupShape(Infix(e'), true);
  }

  lemma OpenerFits(t: Token)
    requires Spellable(t) && Opener(t)
    ensures Fits(NoType, true, t)
  {}

  /** A printed tree with natural literals tokenizes to its infix tokens. */
  lemma TokenizeText(e: Expr)
    requires NaturalLiterals(e)
    ensures Tokenize(Text(e)) == Ok(Infix(e))
  {
    var ts := Infix(e);
    SpellInfix(e);
    InfixShape(e);
    OpenerFits(ts[0]);
    InfixOrderAccepted(e);
    TokenizeSpell(ts);
  }

  /** A printed tree with natural literals evaluates to its value, or fails
      with the error of its evaluation (a division by zero). */
  lemma EvaluateText(e: Expr)
    requires NaturalLiterals(e)
    ensures Eval(e).Ok? ==> Evaluate(Text(e)) == Ok(Some(Num(Eval(e).value)))
    ensures Eval(e).Err? ==> Evaluate(Text(e)) == Err(Eval(e).error)
  {
    TokenizeText(e);
    InfixComputesValue(e);
  }
}
