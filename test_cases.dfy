/** Cases of the repository's own test suite (tests.h), stated on the model:
    a line, the tokens it is read as, and what `Calculate` makes of it.  Each
    case is taken apart into the steps of the pipeline (segments, tokens,
    postfix, reduction), and the general lemmas of the other modules do the
    rest where they apply. */
module TestCases {
  import opened Outcomes
  import opened Tokens
  import opened Parser
  import opened ShuntingYard
  import opened Calculator
  import opened Expressions

  /** `str << calc.Calculate(expr)` writes `text`. */
  predicate Prints(expr: string, text: string)
  {
    Evaluate(expr).Ok? && Evaluate(expr).value.Some? && Render(Evaluate(expr).value.value) == Ok(text)
  }

  /** A line that evaluates to a number prints the number's rendering. */
  lemma PrintsNumber(expr: string, v: real, text: string)
    requires Evaluate(expr) == Ok(Some(Num(v))) && RenderNumber(v) == text
    ensures Prints(expr, text)
  {}

  // ---------------------------------------------------------------------------
  // Lists of tokens

  /** A list of 1 token followed by a list of 1 is the list of both
      written as one display; and likewise for the other lengths below. */
  lemma Join11(a: Token, b: Token)
    ensures [a] + [b] == [a, b]
  {}

  lemma Join12(a: Token, b: Token, c: Token)
    ensures [a] + [b, c] == [a, b, c]
  {}

  lemma Join13(a: Token, b: Token, c: Token, d: Token)
    ensures [a] + [b, c, d] == [a, b, c, d]
  {}

  lemma Join14(a: Token, b: Token, c: Token, d: Token, e: Token)
    ensures [a] + [b, c, d, e] == [a, b, c, d, e]
  {}

  lemma Join21(a: Token, b: Token, c: Token)
    ensures [a, b] + [c] == [a, b, c]
  {}

  lemma Join22(a: Token, b: Token, c: Token, d: Token)
    ensures [a, b] + [c, d] == [a, b, c, d]
  {}

  lemma Join31(a: Token, b: Token, c: Token, d: Token)
    ensures [a, b, c] + [d] == [a, b, c, d]
  {}

  lemma Join15(a: Token, b: Token, c: Token, d: Token, e: Token, f: Token)
    ensures [a] + [b, c, d, e, f] == [a, b, c, d, e, f]
  {}

  lemma Join16(a: Token, b: Token, c: Token, d: Token, e: Token, f: Token, g: Token)
    ensures [a] + [b, c, d, e, f, g] == [a, b, c, d, e, f, g]
  {}

  lemma Join17(a: Token, b: Token, c: Token, d: Token, e: Token, f: Token, g: Token, h: Token)
    ensures [a] + [b, c, d, e, f, g, h] == [a, b, c, d, e, f, g, h]
  {}

  lemma Join18(a: Token, b: Token, c: Token, d: Token, e: Token, f: Token, g: Token, h: Token, i: Token)
    ensures [a] + [b, c, d, e, f, g, h, i] == [a, b, c, d, e, f, g, h, i]
  {}

  lemma Join34(a: Token, b: Token, c: Token, d: Token, e: Token, f: Token, g: Token)
    ensures [a, b, c] + [d, e, f, g] == [a, b, c, d, e, f, g]
  {}

  lemma Join41(a: Token, b: Token, c: Token, d: Token, e: Token)
    ensures [a, b, c, d] + [e] == [a, b, c, d, e]
  {}

  lemma Join51(a: Token, b: Token, c: Token, d: Token, e: Token, f: Token)
    ensures [a, b, c, d, e] + [f] == [a, b, c, d, e, f]
  {}

  // ---------------------------------------------------------------------------
  // Steps of the rewriting, each packed into one fact

  /** The segments `segs` are exactly the ones listed. */
  predicate Segs1(segs: seq<string>, a: string)
  {
    |segs| == 1 && segs[0] == a
  }

  predicate Segs2(segs: seq<string>, a: string, b: string)
  {
    |segs| == 2 && segs[0] == a && segs[1] == b
  }

  predicate Segs3(segs: seq<string>, a: string, b: string, c: string)
  {
    |segs| == 3 && segs[0] == a && segs[1] == b && segs[2] == c
  }

  predicate Segs4(segs: seq<string>, a: string, b: string, c: string, d: string)
  {
    |segs| == 4 && segs[0] == a && segs[1] == b && segs[2] == c && segs[3] == d
  }

  predicate Segs5(segs: seq<string>, a: string, b: string, c: string, d: string, e: string)
  {
    |segs| == 5 && segs[0] == a && segs[1] == b && segs[2] == c && segs[3] == d && segs[4] == e
  }

  predicate Segs6(segs: seq<string>, a: string, b: string, c: string, d: string, e: string, f: string)
  {
    |segs| == 6 && segs[0] == a && segs[1] == b && segs[2] == c && segs[3] == d && segs[4] == e && segs[5] == f
  }

  predicate Segs7(segs: seq<string>, a: string, b: string, c: string, d: string, e: string, f: string, g: string)
  {
    |segs| == 7 && segs[0] == a && segs[1] == b && segs[2] == c && segs[3] == d && segs[4] == e && segs[5] == f && segs[6] == g
  }

  predicate Segs8(segs: seq<string>, a: string, b: string, c: string, d: string, e: string, f: string, g: string, h: string)
  {
    |segs| == 8 && segs[0] == a && segs[1] == b && segs[2] == c && segs[3] == d && segs[4] == e && segs[5] == f && segs[6] == g && segs[7] == h
  }

  predicate Segs9(segs: seq<string>, a: string, b: string, c: string, d: string, e: string, f: string, g: string, h: string, i: string)
  {
    |segs| == 9 && segs[0] == a && segs[1] == b && segs[2] == c && segs[3] == d && segs[4] == e && segs[5] == f && segs[6] == g && segs[7] == h && segs[8] == i
  }

  /** The segment is accepted and read as `lx`. */
  predicate ReadsAs(seg: string, lx: Lexeme)
  {
    Parseable(seg) && ParseTokenSpec(seg) == Ok(lx)
  }

  /** The segments are accepted and rewrite to `ts`. */
  predicate RewritesTo(segs: seq<string>, prev: TokenType, first: bool, ts: seq<Token>)
  {
    AllParseable(segs) && Rewrite(segs, prev, first) == Ok(ts)
  }

  /** The segments after a sign are accepted and rewrite to `ts`. */
  predicate SignsTo(segs: seq<string>, negative: bool, ts: seq<Token>)
  {
    AllParseable(segs) && AfterSign(negative, segs) == Ok(ts)
  }

  /** The first segment reads as `lx` and the others rewrite to `tail`,
      `lx` being the token before them. */
  predicate Step(segs: seq<string>, lx: Lexeme, tail: seq<Token>)
  {
    segs != [] && ReadsAs(segs[0], lx) && RewritesTo(segs[1..], lx.kind, false, tail)
  }

  /** A `(` after a number or `)`, or a number after `)`: a `*` goes before it. */
  predicate Starred(kind: TokenType, prev: TokenType)
  {
    (kind == LeftPar && (prev == Number || prev == RightPar)) || (kind == Number && prev == RightPar)
  }

  /** A token that is neither a sign nor starred. */
  predicate Plain(kind: TokenType, prev: TokenType, first: bool)
  {
    !((kind == Add || kind == Subtract) && (first || prev == LeftPar)) && !Starred(kind, prev)
  }

  /** Segments of which the first and the rest are accepted are accepted. */
  lemma ParseableCons(segs: seq<string>)
    requires segs != [] && Parseable(segs[0]) && AllParseable(segs[1..])
    ensures AllParseable(segs)
  {
    assert forall i :: 0 < i < |segs| ==> segs[i] == segs[1..][i - 1];
  }

  /** A plain token is kept as it is. */
  lemma PlainStep(segs: seq<string>, prev: TokenType, first: bool, lx: Lexeme, tail: seq<Token>)
    requires Step(segs, lx, tail) && Plain(lx.kind, prev, first)
    ensures RewritesTo(segs, prev, first, [lx.token] + tail)
  {
    var nil: seq<Token> := [];
    assert nil + [lx.token] == [lx.token];
  }

  /** A starred token gets a `*` before it. */
  lemma StarStep(segs: seq<string>, prev: TokenType, first: bool, lx: Lexeme, tail: seq<Token>)
    requires Step(segs, lx, tail) && Starred(lx.kind, prev)
    ensures RewritesTo(segs, prev, first, [Op('*'), lx.token] + tail)
  {
    assert [Op('*')] + [lx.token] == [Op('*'), lx.token];
  }

  /** A plain token in the only segment left is the last token. */
  lemma LastStep(segs: seq<string>, prev: TokenType, first: bool, lx: Lexeme)
    requires |segs| == 1 && ReadsAs(segs[0], lx)
    requires Plain(lx.kind, prev, first)
    ensures RewritesTo(segs, prev, first, [lx.token])
  {
    assert segs[1..] == [];
    PlainStep(segs, prev, first, lx, []);
    assert [lx.token] + [] == [lx.token];
  }

  /** A sign at the start of a line or after `(` hands the rest to
      `AfterSign`. */
  lemma SignStep(segs: seq<string>, prev: TokenType, first: bool, lx: Lexeme, ts: seq<Token>)
    requires segs != [] && ReadsAs(segs[0], lx) && (lx.kind == Add || lx.kind == Subtract)
    requires SignsTo(segs[1..], lx.kind == Subtract, ts) && (first || prev == LeftPar)
    ensures RewritesTo(segs, prev, first, ts)
  {
  }

  /** A `+` sign that ends the line stays. */
  lemma SignLast(segs: seq<string>, prev: TokenType, first: bool, lx: Lexeme)
    requires |segs| == 1 && ReadsAs(segs[0], lx) && lx == Lexeme(Op('+'), Add)
    requires first || prev == LeftPar
    ensures RewritesTo(segs, prev, first, [Op('+')])
  {
    assert segs[1..] == [];
  }

  /** A `+` sign is dropped before whatever follows it. */
  lemma PlusDropped(segs: seq<string>, lx: Lexeme, tail: seq<Token>)
    requires Step(segs, lx, tail)
    ensures SignsTo(segs, false, [lx.token] + tail)
  {
  }

  /** A `-` sign before `(` becomes `-1 *`. */
  lemma SignedParen(segs: seq<string>, tail: seq<Token>)
    requires Step(segs, Lexeme(Op('('), LeftPar), tail)
    ensures SignsTo(segs, true, [Num(-1.0), Op('*'), Op('(')] + tail)
  {
  }

  /** A `-` sign followed by a number negates the number. */
  lemma NegatedNumber(segs: seq<string>, v: real, tail: seq<Token>)
    requires Step(segs, Lexeme(Num(v), Number), tail)
    ensures SignsTo(segs, true, [Negated(Num(v))] + tail)
  {
  }

  // ---------------------------------------------------------------------------
  // Segments of a line, one character or word at a time, from its end

  /** `s` holds the characters of `t`, one by one. */
  predicate Spells(s: string, t: string)
  {
    |s| == |t| && forall i :: 0 <= i < |s| ==> s[i] == t[i]
  }

  /** `s[i..k]` is a whole word: no delimiter in it, a delimiter or the end
      of the line after it. */
  predicate WordSpan(s: string, i: nat, k: nat)
  {
    i < k <= |s| && (forall j :: i <= j < k ==> s[j] !in DelimSymbols) && (k == |s| || s[k] in DelimSymbols)
  }

  lemma {:induction false} WordLengthAt(s: string, i: nat, k: nat)
    requires WordSpan(s, i, k)
    ensures WordLength(s[i..]) == k - i
    decreases k - i
  {
    if i + 1 < k {
      WordLengthAt(s, i + 1, k);
      assert s[i..][1..] == s[i + 1..];
    }
  }

  lemma SegmentsAtEnd(s: string, segs: seq<string>)
    ensures Segments(s[|s|..]) == segs[|segs|..]
  {}

  /** The character at `i` is an operator, and segment `j` is that character. */
  predicate OperatorAt(s: string, i: nat, segs: seq<string>, j: nat)
  {
    i < |s| && j < |segs| && s[i] in OperatorSymbols && segs[j] == [s[i]]
  }

  predicate BlankAt(s: string, i: nat, segs: seq<string>, j: nat)
  {
    i < |s| && j <= |segs| && IsBlank(s[i])
  }

  /** The word `s[i..k]` is segment `j`. */
  predicate WordAt(s: string, i: nat, k: nat, segs: seq<string>, j: nat)
  {
    WordSpan(s, i, k) && j < |segs| && segs[j] == s[i..k]
  }

  lemma OperatorStep(s: string, i: nat, segs: seq<string>, j: nat)
    requires OperatorAt(s, i, segs, j) && Segments(s[i + 1..]) == segs[j + 1..]
    ensures Segments(s[i..]) == segs[j..]
  {
    assert s[i..][1..] == s[i + 1..];
    assert s[i..][..1] == [s[i]];
    assert segs[j..] == [segs[j]] + segs[j + 1..];
  }

  lemma BlankStep(s: string, i: nat, segs: seq<string>, j: nat)
    requires BlankAt(s, i, segs, j) && Segments(s[i + 1..]) == segs[j..]
    ensures Segments(s[i..]) == segs[j..]
  {
    assert s[i..][1..] == s[i + 1..];
  }

  lemma WordStep(s: string, i: nat, k: nat, segs: seq<string>, j: nat)
    requires WordAt(s, i, k, segs, j) && Segments(s[k..]) == segs[j + 1..]
    ensures Segments(s[i..]) == segs[j..]
  {
    WordLengthAt(s, i, k);
    assert s[i..][k - i..] == s[k..];
    assert s[i..][..k - i] == s[i..k];
    assert segs[j..] == [segs[j]] + segs[j + 1..];
  }

  // ---------------------------------------------------------------------------
  // Literals

  /** A one-digit literal is the number it denotes. */
  lemma DigitLiteral(c: char)
    requires IsDigit(c)
    ensures ReadsAs([c], Lexeme(Num(DigitValue(c) as real), Number))
  {
    ParseIntegerLiteral([c]);
    assert DigitsValue([c]) == DigitValue(c) by {
      assert [c][..0] == [];
    }
  }

  /** A two-digit literal is the number it denotes. */
  lemma TwoDigitLiteral(a: char, b: char)
    requires IsDigit(a) && IsDigit(b)
    ensures ReadsAs([a, b], Lexeme(Num((10 * DigitValue(a) + DigitValue(b)) as real), Number))
  {
    ParseIntegerLiteral([a, b]);
    assert DigitsValue([a, b]) == 10 * DigitValue(a) + DigitValue(b) by {
      assert [a, b][..1] == [a];
      assert [a][..0] == [];
    }
  }

  /** A three-digit literal is the number it denotes. */
  lemma ThreeDigitLiteral(a: char, b: char, c: char)
    requires IsDigit(a) && IsDigit(b) && IsDigit(c)
    ensures ReadsAs([a, b, c], Lexeme(Num((100 * DigitValue(a) + 10 * DigitValue(b) + DigitValue(c)) as real), Number))
  {
    ParseIntegerLiteral([a, b, c]);
    assert DigitsValue([a, b]) == 10 * DigitValue(a) + DigitValue(b) by {
      assert [a, b][..1] == [a];
      assert [a][..0] == [];
    }
    assert DigitsValue([a, b, c]) == 10 * DigitsValue([a, b]) + DigitValue(c) by {
      assert [a, b, c][..2] == [a, b];
    }
  }

  /** A literal of one digit, a separator of either kind and two digits is
      the number it denotes, to the hundredth. */
  lemma TwoDecimalsLiteral(a: char, sep: char, b: char, c: char)
    requires IsDigit(a) && sep in FloatingSymbols && IsDigit(b) && IsDigit(c)
    ensures ReadsAs([a, sep, b, c], Lexeme(Num(DigitValue(a) as real + (10 * DigitValue(b) + DigitValue(c)) as real / 100.0), Number))
  {
    ParseDecimalLiteral([a], sep, [b, c]);
    assert [a] + [sep] + [b, c] == [a, sep, b, c];
    assert DigitsValue([a]) == DigitValue(a) by {
      assert [a][..0] == [];
    }
    var n := 10 * DigitValue(b) + DigitValue(c);
    assert DigitsValue([b, c]) == n by {
      assert [b, c][..1] == [b];
      assert [b][..0] == [];
    }
    assert Shifted(n, 2) == n as real / 100.0 by {
      assert Shifted(n, 1) == n as real / 10.0;
    }
  }

  /** An operator character is the operator it names. */
  lemma OperatorLiteral(c: char)
    requires c in OperatorSymbols
    ensures ReadsAs([c], Lexeme(Op(c), SymbolType(c)))
  {
    assert SeparatorCount([c]) == 0 by {
      assert [c][..0] == [];
    }
    assert !IsNumberLiteral([c]);
  }

  /** Appending one token to a list appends it to the list without
      parentheses, unless it is a parenthesis. */
  lemma NonParensSnoc(ts: seq<Token>, t: Token)
    ensures NonParens(ts + [t]) == NonParens(ts) + if t.Num? || IsBinaryOperator(t) then [t] else []
  {
    assert (ts + [t])[..|ts|] == ts;
  }

  /** A closing `)` after a number ends a line as it is. */
  lemma ClosingLast(segs: seq<string>)
    requires Segs1(segs, ")")
    ensures RewritesTo(segs, Number, false, [Op(')')])
  {
    OperatorLiteral(')');
    LastStep(segs, Number, false, Lexeme(Op(')'), RightPar));
  }

  // ---------------------------------------------------------------------------
  // From a line to its result

  /** A line whose segments rewrite to tokens that pass the order check is
      read as those tokens. */
  lemma TokenizeSteps(expr: string, segs: seq<string>, ts: seq<Token>)
    requires !HasForbiddenSymbol(expr) && Segments(expr) == segs
    requires RewritesTo(segs, NoType, true, ts) && !WrongOrder(ts)
    ensures Tokenize(expr) == Ok(ts)
  {}

  /** A line whose segments rewrite to tokens that fail the order check is
      rejected with "Misordered tokens". */
  lemma TokenizeMisordered(expr: string, segs: seq<string>, ts: seq<Token>)
    requires !HasForbiddenSymbol(expr) && Segments(expr) == segs
    requires RewritesTo(segs, NoType, true, ts) && WrongOrder(ts)
    ensures Evaluate(expr) == Err(MisorderedTokens)
  {}

  /** A line read as the infix tokens of a tree evaluates to the tree's value,
      or fails as the tree's evaluation does. */
  lemma EvaluatesAs(expr: string, e: Expr)
    requires Tokenize(expr) == Ok(Infix(e))
    ensures Eval(e).Ok? ==> Evaluate(expr) == Ok(Some(Num(Eval(e).value)))
    ensures Eval(e).Err? ==> Evaluate(expr) == Err(Eval(e).error)
  {
    InfixComputesValue(e);
  }

  /** A line whose tokens convert to a postfix list that the reduction rejects
      fails with the reduction's error. */
  lemma EvaluateFails(expr: string, ts: seq<Token>, pf: seq<Token>, e: Error)
    requires Tokenize(expr) == Ok(ts) && ToPostfix(ts) == Ok(pf) && Reduce(pf) == Err(e)
    ensures Evaluate(expr) == Err(e)
  {}

  /** One pass of the conversion loop. */
  lemma RunStep(y: Yard, ts: seq<Token>, y': Yard)
    requires ts != [] && Feed(y, ts[0]) == Ok(y')
    ensures Run(y, ts) == Run(y', ts[1..])
  {}

  // ---------------------------------------------------------------------------
  // "5 + 4" is 9, with or without blanks around it (testWS)

  lemma SumSegments()
    ensures Segments("5 + 4") == ["5", "+", "4"]
  {
    assert Segments("4") == ["4"] by {
      assert WordLength("4") == 1;
      assert "4"[1..] == [];
      assert "4"[..1] == "4";
    }
    assert Segments(" 4") == ["4"] by {
      assert " 4"[1..] == "4";
    }
    assert Segments("+ 4") == ["+", "4"] by {
      assert "+ 4"[1..] == " 4";
      assert "+ 4"[..1] == "+";
    }
    assert Segments(" + 4") == ["+", "4"] by {
      assert " + 4"[1..] == "+ 4";
    }
    assert WordLength("5 + 4") == 1;
    assert "5 + 4"[1..] == " + 4";
    assert "5 + 4"[..1] == "5";
  }

  lemma SumRewriteLast(segs: seq<string>)
    requires Segs1(segs, "4")
    ensures RewritesTo(segs, Add, false, [Num(4.0)])
  {
    DigitLiteral('4');
    LastStep(segs, Add, false, Lexeme(Num(4.0), Number));
  }

  lemma SumRewriteTail(segs: seq<string>)
    requires Segs2(segs, "+", "4")
    ensures RewritesTo(segs, Number, false, [Op('+'), Num(4.0)])
  {
    OperatorLiteral('+');
    SumRewriteLast(segs[1..]);
    PlainStep(segs, Number, false, Lexeme(Op('+'), Add), [Num(4.0)]);
    Join11(Op('+'), Num(4.0));
  }

  lemma SumRewrite(segs: seq<string>)
    requires Segs3(segs, "5", "+", "4")
    ensures RewritesTo(segs, NoType, true, [Num(5.0), Op('+'), Num(4.0)])
  {
    DigitLiteral('5');
    SumRewriteTail(segs[1..]);
    PlainStep(segs, NoType, true, Lexeme(Num(5.0), Number), [Op('+'), Num(4.0)]);
    Join12(Num(5.0), Op('+'), Num(4.0));
  }

  lemma SumInfix()
    ensures Infix(Bin(Plus, Lit(5.0), Lit(4.0))) == [Num(5.0), Op('+'), Num(4.0)]
    ensures !WrongOrder([Num(5.0), Op('+'), Num(4.0)])
  {
    InfixOrderAccepted(Bin(Plus, Lit(5.0), Lit(4.0)));
  }

  lemma SumTokens()
    ensures Tokenize("5 + 4") == Ok(Infix(Bin(Plus, Lit(5.0), Lit(4.0))))
  {
    assert !HasForbiddenSymbol("5 + 4") by {
      assert forall i :: 0 <= i < |"5 + 4"| ==> Admissible("5 + 4"[i]);
    }
    SumSegments();
    SumRewrite(["5", "+", "4"]);
    SumInfix();
    TokenizeSteps("5 + 4", ["5", "+", "4"], [Num(5.0), Op('+'), Num(4.0)]);
  }

  lemma SumValue()
    ensures Evaluate("5 + 4") == Ok(Some(Num(9.0)))
  {
    SumTokens();
    EvaluatesAs("5 + 4", Bin(Plus, Lit(5.0), Lit(4.0)));
  }

  lemma RendersNine()
    ensures RenderNumber(9.0) == "9"
  {
    assert Cents(9.0) == 900;
  }

  lemma SumPrintsNine()
    ensures Prints("5 + 4", "9")
  {
    SumValue();
    RendersNine();
    PrintsNumber("5 + 4", 9.0, "9");
  }

  /** With blanks before it ("     5 + 4") or after it ("5 + 4    "), the
      line still prints 9. */
  lemma PaddedSumPrintsNine(pre: string, post: string)
    requires forall j :: 0 <= j < |pre| ==> IsBlank(pre[j])
    requires forall j :: 0 <= j < |post| ==> IsBlank(post[j])
    ensures Prints(pre + "5 + 4" + post, "9")
  {
    TokenizePadded(pre, "5 + 4", post);
    SumPrintsNine();
  }

  // ---------------------------------------------------------------------------
  // "2(50)" is 100: a `*` goes between a number and `(` (testParenthesis)

  lemma ImplicitSegments()
    ensures Segments("2(50)") == ["2", "(", "50", ")"]
  {
    assert Segments(")") == [")"] by {
      assert ")"[..1] == ")";
      assert ")"[1..] == [];
    }
    assert Segments("50)") == ["50", ")"] by {
      assert "50)"[1..] == "0)";
      assert WordLength("50)") == 2;
      assert "50)"[..2] == "50";
      assert "50)"[2..] == ")";
    }
    assert Segments("(50)") == ["(", "50", ")"] by {
      assert "(50)"[..1] == "(";
      assert "(50)"[1..] == "50)";
    }
    assert WordLength("2(50)") == 1;
    assert "2(50)"[..1] == "2";
    assert "2(50)"[1..] == "(50)";
  }

  lemma ImplicitRewriteTail(segs: seq<string>)
    requires Segs2(segs, "50", ")")
    ensures RewritesTo(segs, LeftPar, false, [Num(50.0), Op(')')])
  {
    TwoDigitLiteral('5', '0');
    ClosingLast(segs[1..]);
    PlainStep(segs, LeftPar, false, Lexeme(Num(50.0), Number), [Op(')')]);
    Join11(Num(50.0), Op(')'));
  }

  lemma ImplicitRewriteParen(segs: seq<string>)
    requires Segs3(segs, "(", "50", ")")
    ensures RewritesTo(segs, Number, false, [Op('*'), Op('('), Num(50.0), Op(')')])
  {
    OperatorLiteral('(');
    ImplicitRewriteTail(segs[1..]);
    StarStep(segs, Number, false, Lexeme(Op('('), LeftPar), [Num(50.0), Op(')')]);
    Join22(Op('*'), Op('('), Num(50.0), Op(')'));
  }

  lemma ImplicitRewrite(segs: seq<string>)
    requires Segs4(segs, "2", "(", "50", ")")
    ensures RewritesTo(segs, NoType, true, [Num(2.0), Op('*'), Op('('), Num(50.0), Op(')')])
  {
    DigitLiteral('2');
    ImplicitRewriteParen(segs[1..]);
    PlainStep(segs, NoType, true, Lexeme(Num(2.0), Number), [Op('*'), Op('('), Num(50.0), Op(')')]);
    Join14(Num(2.0), Op('*'), Op('('), Num(50.0), Op(')'));
  }

  lemma ImplicitInfix()
    ensures Infix(Bin(Times, Lit(2.0), Paren(Lit(50.0)))) == [Num(2.0), Op('*'), Op('('), Num(50.0), Op(')')]
    ensures !WrongOrder([Num(2.0), Op('*'), Op('('), Num(50.0), Op(')')])
  {
    InfixOrderAccepted(Bin(Times, Lit(2.0), Paren(Lit(50.0))));
  }

  lemma ImplicitTokens()
    ensures Tokenize("2(50)") == Ok(Infix(Bin(Times, Lit(2.0), Paren(Lit(50.0)))))
  {
    assert !HasForbiddenSymbol("2(50)") by {
      assert forall i :: 0 <= i < |"2(50)"| ==> Admissible("2(50)"[i]);
    }
    ImplicitSegments();
    ImplicitRewrite(["2", "(", "50", ")"]);
    ImplicitInfix();
    TokenizeSteps("2(50)", ["2", "(", "50", ")"], [Num(2.0), Op('*'), Op('('), Num(50.0), Op(')')]);
  }


  lemma ImplicitValue()
    ensures Evaluate("2(50)") == Ok(Some(Num(100.0)))
  {
    ImplicitTokens();
    EvaluatesAs("2(50)", Bin(Times, Lit(2.0), Paren(Lit(50.0))));
  }


  lemma RendersHundred()
    ensures RenderNumber(100.0) == "100"
  {
    assert Cents(100.0) == 10000;
    assert NatToString(10) == "10";
  }

  lemma ImplicitPrintsHundred()
    ensures Prints("2(50)", "100")
  {
    ImplicitValue();
    RendersHundred();
    PrintsNumber("2(50)", 100.0, "100");
  }

  // ---------------------------------------------------------------------------
  // "-5 - 4" is -9: a leading `-` negates the number after it (testNegative)

  lemma NegativeSegmentsTail()
    ensures Segments("5 - 4") == ["5", "-", "4"]
  {
    assert Segments("4") == ["4"] by {
      assert WordLength("4") == 1;
      assert "4"[1..] == [];
      assert "4"[..1] == "4";
    }
    assert Segments(" 4") == ["4"] by {
      assert " 4"[1..] == "4";
    }
    assert Segments("- 4") == ["-", "4"] by {
      assert "- 4"[1..] == " 4";
      assert "- 4"[..1] == "-";
    }
    assert Segments(" - 4") == ["-", "4"] by {
      assert " - 4"[1..] == "- 4";
    }
    assert WordLength("5 - 4") == 1;
    assert "5 - 4"[1..] == " - 4";
    assert "5 - 4"[..1] == "5";
  }

  lemma NegativeSegments()
    ensures Segments("-5 - 4") == ["-", "5", "-", "4"]
  {
    NegativeSegmentsTail();
    assert "-5 - 4"[1..] == "5 - 4";
    assert "-5 - 4"[..1] == "-";
  }

  lemma NegativeRewriteLast(segs: seq<string>)
    requires Segs1(segs, "4")
    ensures RewritesTo(segs, Subtract, false, [Num(4.0)])
  {
    DigitLiteral('4');
    LastStep(segs, Subtract, false, Lexeme(Num(4.0), Number));
  }

  lemma NegativeRewriteTail(segs: seq<string>)
    requires Segs2(segs, "-", "4")
    ensures RewritesTo(segs, Number, false, [Op('-'), Num(4.0)])
  {
    OperatorLiteral('-');
    NegativeRewriteLast(segs[1..]);
    PlainStep(segs, Number, false, Lexeme(Op('-'), Subtract), [Num(4.0)]);
    Join11(Op('-'), Num(4.0));
  }

  lemma NegativeRewriteSigned(segs: seq<string>)
    requires Segs3(segs, "5", "-", "4")
    ensures SignsTo(segs, true, [Num(-5.0), Op('-'), Num(4.0)])
  {
    DigitLiteral('5');
    NegativeRewriteTail(segs[1..]);
    NegatedNumber(segs, 5.0, [Op('-'), Num(4.0)]);
    Join12(Num(-5.0), Op('-'), Num(4.0));
  }

  lemma NegativeRewrite(segs: seq<string>)
    requires Segs4(segs, "-", "5", "-", "4")
    ensures RewritesTo(segs, NoType, true, [Num(-5.0), Op('-'), Num(4.0)])
  {
    OperatorLiteral('-');
    NegativeRewriteSigned(segs[1..]);
    SignStep(segs, NoType, true, Lexeme(Op('-'), Subtract), [Num(-5.0), Op('-'), Num(4.0)]);
  }

  lemma NegativeInfix()
    ensures Infix(Bin(Minus, Lit(-5.0), Lit(4.0))) == [Num(-5.0), Op('-'), Num(4.0)]
    ensures !WrongOrder([Num(-5.0), Op('-'), Num(4.0)])
  {
    InfixOrderAccepted(Bin(Minus, Lit(-5.0), Lit(4.0)));
  }

  lemma NegativeTokens()
    ensures Tokenize("-5 - 4") == Ok(Infix(Bin(Minus, Lit(-5.0), Lit(4.0))))
  {
    assert !HasForbiddenSymbol("-5 - 4") by {
      assert forall i :: 0 <= i < |"-5 - 4"| ==> Admissible("-5 - 4"[i]);
    }
    NegativeSegments();
    NegativeRewrite(["-", "5", "-", "4"]);
    NegativeInfix();
    TokenizeSteps("-5 - 4", ["-", "5", "-", "4"], [Num(-5.0), Op('-'), Num(4.0)]);
  }


  lemma NegativeValue()
    ensures Evaluate("-5 - 4") == Ok(Some(Num(-9.0)))
  {
    NegativeTokens();
    EvaluatesAs("-5 - 4", Bin(Minus, Lit(-5.0), Lit(4.0)));
  }


  lemma RendersMinusNine()
    ensures RenderNumber(-9.0) == "-9"
  {
    assert Cents(-9.0) == -900;
  }

  lemma NegativePrintsMinusNine()
    ensures Prints("-5 - 4", "-9")
  {
    NegativeValue();
    RendersMinusNine();
    PrintsNumber("-5 - 4", -9.0, "-9");
  }

  // ---------------------------------------------------------------------------
  // "13 12 +" is rejected: the line ends with an operator (testParsingErrorHandling)

  lemma TrailingSegmentsTail()
    ensures Segments(" 12 +") == ["12", "+"]
  {
    assert Segments("+") == ["+"] by {
      assert "+"[..1] == "+";
      assert "+"[1..] == [];
    }
    assert Segments(" +") == ["+"] by {
      assert " +"[1..] == "+";
    }
    assert Segments("12 +") == ["12", "+"] by {
      assert "12 +"[1..] == "2 +";
      assert WordLength("12 +") == 2;
      assert "12 +"[..2] == "12";
      assert "12 +"[2..] == " +";
    }
    assert " 12 +"[1..] == "12 +";
  }

  lemma TrailingSegments()
    ensures Segments("13 12 +") == ["13", "12", "+"]
  {
    TrailingSegmentsTail();
    assert "13 12 +"[1..] == "3 12 +";
    assert WordLength("13 12 +") == 2;
    assert "13 12 +"[..2] == "13";
    assert "13 12 +"[2..] == " 12 +";
  }

  lemma TrailingRewriteLast(segs: seq<string>)
    requires Segs1(segs, "+")
    ensures RewritesTo(segs, Number, false, [Op('+')])
  {
    OperatorLiteral('+');
    LastStep(segs, Number, false, Lexeme(Op('+'), Add));
  }

  lemma TrailingRewriteTail(segs: seq<string>)
    requires Segs2(segs, "12", "+")
    ensures RewritesTo(segs, Number, false, [Num(12.0), Op('+')])
  {
    TwoDigitLiteral('1', '2');
    TrailingRewriteLast(segs[1..]);
    PlainStep(segs, Number, false, Lexeme(Num(12.0), Number), [Op('+')]);
    Join11(Num(12.0), Op('+'));
  }

  lemma TrailingRewrite(segs: seq<string>)
    requires Segs3(segs, "13", "12", "+")
    ensures RewritesTo(segs, NoType, true, [Num(13.0), Num(12.0), Op('+')])
  {
    TwoDigitLiteral('1', '3');
    TrailingRewriteTail(segs[1..]);
    PlainStep(segs, NoType, true, Lexeme(Num(13.0), Number), [Num(12.0), Op('+')]);
    Join12(Num(13.0), Num(12.0), Op('+'));
  }

  lemma TrailingOrder()
    ensures WrongOrder([Num(13.0), Num(12.0), Op('+')])
  {
    NonParensSnoc([Num(13.0), Num(12.0)], Op('+'));
    Join21(Num(13.0), Num(12.0), Op('+'));
  }

  lemma TrailingOperatorRejected()
    ensures Evaluate("13 12 +") == Err(MisorderedTokens)
  {
    assert !HasForbiddenSymbol("13 12 +") by {
      assert forall i :: 0 <= i < |"13 12 +"| ==> Admissible("13 12 +"[i]);
    }
    TrailingSegments();
    TrailingRewrite(["13", "12", "+"]);
    TrailingOrder();
    TokenizeMisordered("13 12 +", ["13", "12", "+"], [Num(13.0), Num(12.0), Op('+')]);
  }

  // ---------------------------------------------------------------------------
  // "(" is rejected: a line of parentheses only holds no number (testParenthesis)

  lemma LoneRewrite(segs: seq<string>)
    requires Segs1(segs, "(")
    ensures RewritesTo(segs, NoType, true, [Op('(')])
  {
    OperatorLiteral('(');
    LastStep(segs, NoType, true, Lexeme(Op('('), LeftPar));
  }

  lemma LoneOrder()
    ensures WrongOrder([Op('(')])
  {
    NonParensSingle(Op('('));
  }

  lemma LoneParenthesisRejected()
    ensures Evaluate("(") == Err(MisorderedTokens)
  {
    assert !HasForbiddenSymbol("(") by {
      assert Admissible('(');
    }
    assert Segments("(") == ["("] by {
      assert "("[..1] == "(";
      assert "("[1..] == [];
    }
    LoneRewrite(["("]);
    LoneOrder();
    TokenizeMisordered("(", ["("], [Op('(')]);
  }

  // ---------------------------------------------------------------------------
  // "14 14" fails in the reduction: no operator joins the numbers
  // (testParsingErrorHandling)

  lemma AdjacentSegments()
    ensures Segments("14 14") == ["14", "14"]
  {
    assert Segments("14") == ["14"] by {
      assert "14"[1..] == "4";
      assert WordLength("14") == 2;
      assert "14"[..2] == "14";
      assert "14"[2..] == [];
    }
    assert Segments(" 14") == ["14"] by {
      assert " 14"[1..] == "14";
    }
    assert "14 14"[1..] == "4 14";
    assert WordLength("14 14") == 2;
    assert "14 14"[..2] == "14";
    assert "14 14"[2..] == " 14";
  }

  lemma AdjacentRewriteLast(segs: seq<string>)
    requires Segs1(segs, "14")
    ensures RewritesTo(segs, Number, false, [Num(14.0)])
  {
    TwoDigitLiteral('1', '4');
    LastStep(segs, Number, false, Lexeme(Num(14.0), Number));
  }

  lemma AdjacentRewrite(segs: seq<string>)
    requires Segs2(segs, "14", "14")
    ensures RewritesTo(segs, NoType, true, [Num(14.0), Num(14.0)])
  {
    TwoDigitLiteral('1', '4');
    AdjacentRewriteLast(segs[1..]);
    PlainStep(segs, NoType, true, Lexeme(Num(14.0), Number), [Num(14.0)]);
    Join11(Num(14.0), Num(14.0));
  }

  /** The order check lets two adjacent numbers through. */
  lemma AdjacentOrder()
    ensures !WrongOrder([Num(14.0), Num(14.0)])
  {
    NonParensSingle(Num(14.0));
    NonParensSnoc([Num(14.0)], Num(14.0));
    Join11(Num(14.0), Num(14.0));
  }

  lemma AdjacentTokens()
    ensures Tokenize("14 14") == Ok([Num(14.0), Num(14.0)])
  {
    assert !HasForbiddenSymbol("14 14") by {
      assert forall i :: 0 <= i < |"14 14"| ==> Admissible("14 14"[i]);
    }
    AdjacentSegments();
    AdjacentRewrite(["14", "14"]);
    AdjacentOrder();
    TokenizeSteps("14 14", ["14", "14"], [Num(14.0), Num(14.0)]);
  }

  lemma AdjacentNumbersPostfix()
    ensures ToPostfix([Num(14.0), Num(14.0)]) == Ok([Num(14.0), Num(14.0)])
  {
    var ts := [Num(14.0), Num(14.0)];
    assert ts[1..][1..] == [];
    var nil: seq<Token> := [];
    assert nil + [Num(14.0)] == [Num(14.0)];
    assert [Num(14.0)] + [Num(14.0)] == ts;
    assert Drain(Yard(ts, [])) == ts by {
      assert ts + Popped([]) == ts;
    }
    RunStep(Yard([Num(14.0)], []), ts[1..], Yard([Num(14.0), Num(14.0)], []));
    RunStep(Yard([], []), ts, Yard([Num(14.0)], []));
  }

  lemma AdjacentNumbersRejected()
    ensures Evaluate("14 14") == Err(OperatorNotFound)
  {
    AdjacentTokens();
    AdjacentNumbersPostfix();
    FirstOperatorNone([Num(14.0), Num(14.0)]);
    EvaluateFails("14 14", [Num(14.0), Num(14.0)], [Num(14.0), Num(14.0)], OperatorNotFound);
  }

  // ---------------------------------------------------------------------------
  // "((1)" fails in the reduction: the unmatched `(` is left in the output and
  // taken for an operator with a single operand (testParenthesis)

  lemma UnclosedSegments()
    ensures Segments("((1)") == ["(", "(", "1", ")"]
  {
    assert Segments(")") == [")"] by {
      assert ")"[..1] == ")";
      assert ")"[1..] == [];
    }
    assert Segments("1)") == ["1", ")"] by {
      assert WordLength("1)") == 1;
      assert "1)"[..1] == "1";
      assert "1)"[1..] == ")";
    }
    assert Segments("(1)") == ["(", "1", ")"] by {
      assert "(1)"[..1] == "(";
      assert "(1)"[1..] == "1)";
    }
    assert "((1)"[..1] == "(";
    assert "((1)"[1..] == "(1)";
  }

  lemma UnclosedRewriteNumber(segs: seq<string>)
    requires Segs2(segs, "1", ")")
    ensures RewritesTo(segs, LeftPar, false, [Num(1.0), Op(')')])
  {
    DigitLiteral('1');
    ClosingLast(segs[1..]);
    PlainStep(segs, LeftPar, false, Lexeme(Num(1.0), Number), [Op(')')]);
    Join11(Num(1.0), Op(')'));
  }

  lemma UnclosedRewriteInner(segs: seq<string>)
    requires Segs3(segs, "(", "1", ")")
    ensures RewritesTo(segs, LeftPar, false, [Op('('), Num(1.0), Op(')')])
  {
    OperatorLiteral('(');
    UnclosedRewriteNumber(segs[1..]);
    PlainStep(segs, LeftPar, false, Lexeme(Op('('), LeftPar), [Num(1.0), Op(')')]);
    Join12(Op('('), Num(1.0), Op(')'));
  }

  lemma UnclosedRewrite(segs: seq<string>)
    requires Segs4(segs, "(", "(", "1", ")")
    ensures RewritesTo(segs, NoType, true, [Op('('), Op('('), Num(1.0), Op(')')])
  {
    OperatorLiteral('(');
    UnclosedRewriteInner(segs[1..]);
    PlainStep(segs, NoType, true, Lexeme(Op('('), LeftPar), [Op('('), Num(1.0), Op(')')]);
    Join13(Op('('), Op('('), Num(1.0), Op(')'));
  }

  lemma UnclosedOrder()
    ensures !WrongOrder([Op('('), Op('('), Num(1.0), Op(')')])
  {
    NonParensSingle(Op('('));
    NonParensSnoc([Op('(')], Op('('));
    Join11(Op('('), Op('('));
    NonParensSnoc([Op('('), Op('(')], Num(1.0));
    Join21(Op('('), Op('('), Num(1.0));
    NonParensSnoc([Op('('), Op('('), Num(1.0)], Op(')'));
    Join31(Op('('), Op('('), Num(1.0), Op(')'));
  }

  lemma UnclosedTokens()
    ensures Tokenize("((1)") == Ok([Op('('), Op('('), Num(1.0), Op(')')])
  {
    assert !HasForbiddenSymbol("((1)") by {
      assert forall i :: 0 <= i < |"((1)"| ==> Admissible("((1)"[i]);
    }
    UnclosedSegments();
    UnclosedRewrite(["(", "(", "1", ")"]);
    UnclosedOrder();
    TokenizeSteps("((1)", ["(", "(", "1", ")"], [Op('('), Op('('), Num(1.0), Op(')')]);
  }

  lemma UnclosedPostfix()
    ensures ToPostfix([Op('('), Op('('), Num(1.0), Op(')')]) == Ok([Num(1.0), Op('(')])
  {
    var ts := [Op('('), Op('('), Num(1.0), Op(')')];
    assert ts[1..] == [Op('('), Num(1.0), Op(')')] && ts[1..][1..] == [Num(1.0), Op(')')];
    assert ts[1..][1..][1..] == [Op(')')] && ts[1..][1..][1..][1..] == [];
    var noChars: seq<char> := [];
    var nil: seq<Token> := [];
    assert noChars + ['('] == ['('] && ['('] + ['('] == ['(', '('];
    assert nil + [Num(1.0)] == [Num(1.0)];
    assert ['(', '('][..1] == ['('];
    RunStep(Yard([Num(1.0)], ['(', '(']), ts[1..][1..][1..], Yard([Num(1.0)], ['(']));
    RunStep(Yard([], ['(', '(']), ts[1..][1..], Yard([Num(1.0)], ['(', '(']));
    RunStep(Yard([], ['(']), ts[1..], Yard([], ['(', '(']));
    RunStep(Yard([], []), ts, Yard([], ['(']));
    assert Drain(Yard([Num(1.0)], ['('])) == [Num(1.0), Op('(')] by {
      assert Popped(['(']) == [Op('(')] by {
        assert ['('][..0] == [];
      }
    }
  }

  lemma UnclosedReduce()
    ensures Reduce([Num(1.0), Op('(')]) == Err(LhsNotFound)
  {
    FirstOperatorAt([Num(1.0), Op('(')], 1);
  }

  lemma UnclosedParenthesisRejected()
    ensures Evaluate("((1)") == Err(LhsNotFound)
  {
    UnclosedTokens();
    UnclosedPostfix();
    UnclosedReduce();
    EvaluateFails("((1)", [Op('('), Op('('), Num(1.0), Op(')')], [Num(1.0), Op('(')], LhsNotFound);
  }

  // ---------------------------------------------------------------------------
  // "1 + (1+5))": an extra `)` is a mismatched parenthesis (testParenthesis)

  lemma ExtraParenthesisRejected()
    ensures ToPostfix([Num(1.0), Op('+'), Op('('), Num(1.0), Op('+'), Num(5.0), Op(')'), Op(')')]) == Err(MismatchedParenthesis)
  {
    var e := Bin(Plus, Lit(1.0), Paren(Bin(Plus, Lit(1.0), Lit(5.0))));
    assert Infix(e) + [Op(')')] == [Num(1.0), Op('+'), Op('('), Num(1.0), Op('+'), Num(5.0), Op(')'), Op(')')];
    ExtraCloseMismatched(e);
  }

  // ---------------------------------------------------------------------------
  // "15 / (5,00 - 5.000)" divides by zero (testDivideByZero)

  lemma DivisionInfix()
    ensures Infix(Bin(Over, Lit(15.0), Paren(Bin(Minus, Lit(5.0), Lit(5.0)))))
      == [Num(15.0), Op('/'), Op('('), Num(5.0), Op('-'), Num(5.0), Op(')')]
  {
    var inner := [Num(5.0), Op('-'), Num(5.0)];
    assert Infix(Bin(Minus, Lit(5.0), Lit(5.0))) == inner;
    assert Infix(Paren(Bin(Minus, Lit(5.0), Lit(5.0)))) == [Op('('), Num(5.0), Op('-'), Num(5.0), Op(')')];
  }

  lemma DivisionPostfix()
    ensures Postfix(Bin(Over, Lit(15.0), Paren(Bin(Minus, Lit(5.0), Lit(5.0)))))
      == [Num(15.0), Num(5.0), Num(5.0), Op('-'), Op('/')]
  {
    assert Postfix(Paren(Bin(Minus, Lit(5.0), Lit(5.0)))) == [Num(5.0), Num(5.0), Op('-')];
  }

  lemma DivisionValue()
    ensures Eval(Bin(Over, Lit(15.0), Paren(Bin(Minus, Lit(5.0), Lit(5.0))))) == Err(DivisionByZero)
  {}

  lemma DivisionByZeroRejected()
    ensures ToPostfix([Num(15.0), Op('/'), Op('('), Num(5.0), Op('-'), Num(5.0), Op(')')])
      == Ok([Num(15.0), Num(5.0), Num(5.0), Op('-'), Op('/')])
    ensures Reduce([Num(15.0), Num(5.0), Num(5.0), Op('-'), Op('/')]) == Err(DivisionByZero)
  {
    var e := Bin(Over, Lit(15.0), Paren(Bin(Minus, Lit(5.0), Lit(5.0))));
    DivisionInfix();
    DivisionPostfix();
    DivisionValue();
    ConvertInfix(e);
    InfixComputesValue(e);
  }

  // ---------------------------------------------------------------------------
  // "5 - 14" is -9 (testNegative)

  predicate DifferenceLine(s: string, segs: seq<string>)
  {
    Spells(s, "5 - 14") && Segs3(segs, "5", "-", "14")
  }

  lemma DifferenceSegmentsFrom1(s: string, segs: seq<string>)
    requires DifferenceLine(s, segs)
    ensures Segments(s[1..]) == segs[1..]
  {
    SegmentsAtEnd(s, segs);
    WordStep(s, 4, 6, segs, 2);
    BlankStep(s, 3, segs, 2);
    OperatorStep(s, 2, segs, 1);
    BlankStep(s, 1, segs, 1);
  }

  lemma DifferenceSegments(s: string, segs: seq<string>)
    requires DifferenceLine(s, segs)
    ensures Segments(s) == segs
  {
    DifferenceSegmentsFrom1(s, segs);
    WordStep(s, 0, 1, segs, 0);
    assert s[0..] == s && segs[0..] == segs;
  }

  lemma DifferenceRewriteFrom2(segs: seq<string>)
    requires Segs1(segs, "14")
    ensures RewritesTo(segs, Subtract, false, [Num(14.0)])
  {
    TwoDigitLiteral('1', '4');
    LastStep(segs, Subtract, false, Lexeme(Num(14.0), Number));
  }

  lemma DifferenceRewriteFrom1(segs: seq<string>)
    requires Segs2(segs, "-", "14")
    ensures RewritesTo(segs, Number, false, [Op('-'), Num(14.0)])
  {
    OperatorLiteral('-');
    DifferenceRewriteFrom2(segs[1..]);
    PlainStep(segs, Number, false, Lexeme(Op('-'), Subtract), [Num(14.0)]);
    Join11(Op('-'), Num(14.0));
  }

  lemma DifferenceRewrite(segs: seq<string>)
    requires Segs3(segs, "5", "-", "14")
    ensures RewritesTo(segs, NoType, true, [Num(5.0), Op('-'), Num(14.0)])
  {
    DigitLiteral('5');
    DifferenceRewriteFrom1(segs[1..]);
    PlainStep(segs, NoType, true, Lexeme(Num(5.0), Number), [Op('-'), Num(14.0)]);
    Join12(Num(5.0), Op('-'), Num(14.0));
  }

  lemma DifferenceInfix()
    ensures Infix(Bin(Minus, Lit(5.0), Lit(14.0))) == [Num(5.0), Op('-'), Num(14.0)]
    ensures !WrongOrder([Num(5.0), Op('-'), Num(14.0)])
  {
    InfixOrderAccepted(Bin(Minus, Lit(5.0), Lit(14.0)));
  }

  lemma DifferenceTokens(s: string, segs: seq<string>)
    requires DifferenceLine(s, segs)
    ensures Tokenize(s) == Ok([Num(5.0), Op('-'), Num(14.0)])
  {
    assert forall i :: 0 <= i < |"5 - 14"| ==> Admissible("5 - 14"[i]);
    DifferenceSegments(s, segs);
    DifferenceRewrite(segs);
    DifferenceInfix();
    TokenizeSteps(s, segs, [Num(5.0), Op('-'), Num(14.0)]);
  }

  lemma DifferenceValue()
    ensures Evaluate("5 - 14") == Ok(Some(Num(-9.0)))
  {
    DifferenceTokens("5 - 14", ["5", "-", "14"]);
    DifferenceInfix();
    EvaluatesAs("5 - 14", Bin(Minus, Lit(5.0), Lit(14.0)));
  }

  lemma DifferencePrintsMinusNine()
    ensures Prints("5 - 14", "-9")
  {
    DifferenceValue();
    RendersMinusNine();
    PrintsNumber("5 - 14", -9.0, "-9");
  }

  // ---------------------------------------------------------------------------
  // "-(5 + 4)" is -9: a `-` before `(` becomes `-1 *` (testNegative)

  predicate NegatedGroupLine(s: string, segs: seq<string>)
  {
    Spells(s, "-(5 + 4)") && Segs6(segs, "-", "(", "5", "+", "4", ")")
  }

  lemma NegatedGroupSegmentsFrom4(s: string, segs: seq<string>)
    requires NegatedGroupLine(s, segs)
    ensures Segments(s[4..]) == segs[3..]
  {
    SegmentsAtEnd(s, segs);
    OperatorStep(s, 7, segs, 5);
    WordStep(s, 6, 7, segs, 4);
    BlankStep(s, 5, segs, 4);
    OperatorStep(s, 4, segs, 3);
  }

  lemma NegatedGroupSegments(s: string, segs: seq<string>)
    requires NegatedGroupLine(s, segs)
    ensures Segments(s) == segs
  {
    NegatedGroupSegmentsFrom4(s, segs);
    BlankStep(s, 3, segs, 3);
    WordStep(s, 2, 3, segs, 2);
    OperatorStep(s, 1, segs, 1);
    OperatorStep(s, 0, segs, 0);
    assert s[0..] == s && segs[0..] == segs;
  }

  lemma NegatedGroupRewriteFrom4(segs: seq<string>)
    requires Segs2(segs, "4", ")")
    ensures RewritesTo(segs, Add, false, [Num(4.0), Op(')')])
  {
    DigitLiteral('4');
    ClosingLast(segs[1..]);
    PlainStep(segs, Add, false, Lexeme(Num(4.0), Number), [Op(')')]);
    Join11(Num(4.0), Op(')'));
  }

  lemma NegatedGroupRewriteFrom3(segs: seq<string>)
    requires Segs3(segs, "+", "4", ")")
    ensures RewritesTo(segs, Number, false, [Op('+'), Num(4.0), Op(')')])
  {
    OperatorLiteral('+');
    NegatedGroupRewriteFrom4(segs[1..]);
    PlainStep(segs, Number, false, Lexeme(Op('+'), Add), [Num(4.0), Op(')')]);
    Join12(Op('+'), Num(4.0), Op(')'));
  }

  lemma NegatedGroupRewriteFrom2(segs: seq<string>)
    requires Segs4(segs, "5", "+", "4", ")")
    ensures RewritesTo(segs, LeftPar, false, [Num(5.0), Op('+'), Num(4.0), Op(')')])
  {
    DigitLiteral('5');
    NegatedGroupRewriteFrom3(segs[1..]);
    PlainStep(segs, LeftPar, false, Lexeme(Num(5.0), Number), [Op('+'), Num(4.0), Op(')')]);
    Join13(Num(5.0), Op('+'), Num(4.0), Op(')'));
  }

  lemma NegatedGroupRewriteFrom1(segs: seq<string>)
    requires Segs5(segs, "(", "5", "+", "4", ")")
    ensures SignsTo(segs, true, [Num(-1.0), Op('*'), Op('('), Num(5.0), Op('+'), Num(4.0), Op(')')])
  {
    OperatorLiteral('(');
    NegatedGroupRewriteFrom2(segs[1..]);
    SignedParen(segs, [Num(5.0), Op('+'), Num(4.0), Op(')')]);
    Join34(Num(-1.0), Op('*'), Op('('), Num(5.0), Op('+'), Num(4.0), Op(')'));
  }

  lemma NegatedGroupRewrite(segs: seq<string>)
    requires Segs6(segs, "-", "(", "5", "+", "4", ")")
    ensures RewritesTo(segs, NoType, true, [Num(-1.0), Op('*'), Op('('), Num(5.0), Op('+'), Num(4.0), Op(')')])
  {
    OperatorLiteral('-');
    NegatedGroupRewriteFrom1(segs[1..]);
    SignStep(segs, NoType, true, Lexeme(Op('-'), Subtract), [Num(-1.0), Op('*'), Op('('), Num(5.0), Op('+'), Num(4.0), Op(')')]);
  }

  lemma NegatedGroupInfix()
    ensures Infix(Bin(Times, Lit(-1.0), Paren(Bin(Plus, Lit(5.0), Lit(4.0))))) == [Num(-1.0), Op('*'), Op('('), Num(5.0), Op('+'), Num(4.0), Op(')')]
    ensures !WrongOrder([Num(-1.0), Op('*'), Op('('), Num(5.0), Op('+'), Num(4.0), Op(')')])
  {
    InfixOrderAccepted(Bin(Times, Lit(-1.0), Paren(Bin(Plus, Lit(5.0), Lit(4.0)))));
  }

  lemma NegatedGroupTokens(s: string, segs: seq<string>)
    requires NegatedGroupLine(s, segs)
    ensures Tokenize(s) == Ok([Num(-1.0), Op('*'), Op('('), Num(5.0), Op('+'), Num(4.0), Op(')')])
  {
    assert forall i :: 0 <= i < |"-(5 + 4)"| ==> Admissible("-(5 + 4)"[i]);
    NegatedGroupSegments(s, segs);
    NegatedGroupRewrite(segs);
    NegatedGroupInfix();
    TokenizeSteps(s, segs, [Num(-1.0), Op('*'), Op('('), Num(5.0), Op('+'), Num(4.0), Op(')')]);
  }

  lemma NegatedGroupValue()
    ensures Evaluate("-(5 + 4)") == Ok(Some(Num(-9.0)))
  {
    NegatedGroupTokens("-(5 + 4)", ["-", "(", "5", "+", "4", ")"]);
    NegatedGroupInfix();
    EvaluatesAs("-(5 + 4)", Bin(Times, Lit(-1.0), Paren(Bin(Plus, Lit(5.0), Lit(4.0)))));
  }

  lemma NegatedGroupPrintsMinusNine()
    ensures Prints("-(5 + 4)", "-9")
  {
    NegatedGroupValue();
    RendersMinusNine();
    PrintsNumber("-(5 + 4)", -9.0, "-9");
  }

  // ---------------------------------------------------------------------------
  // "(50 + 50)" is 100 (testParenthesis)

  predicate GroupedLine(s: string, segs: seq<string>)
  {
    Spells(s, "(50 + 50)") && Segs5(segs, "(", "50", "+", "50", ")")
  }

  lemma GroupedSegmentsFrom4(s: string, segs: seq<string>)
    requires GroupedLine(s, segs)
    ensures Segments(s[4..]) == segs[2..]
  {
    SegmentsAtEnd(s, segs);
    OperatorStep(s, 8, segs, 4);
    WordStep(s, 6, 8, segs, 3);
    BlankStep(s, 5, segs, 3);
    OperatorStep(s, 4, segs, 2);
  }

  lemma GroupedSegments(s: string, segs: seq<string>)
    requires GroupedLine(s, segs)
    ensures Segments(s) == segs
  {
    GroupedSegmentsFrom4(s, segs);
    BlankStep(s, 3, segs, 2);
    WordStep(s, 1, 3, segs, 1);
    OperatorStep(s, 0, segs, 0);
    assert s[0..] == s && segs[0..] == segs;
  }

  lemma GroupedRewriteFrom3(segs: seq<string>)
    requires Segs2(segs, "50", ")")
    ensures RewritesTo(segs, Add, false, [Num(50.0), Op(')')])
  {
    TwoDigitLiteral('5', '0');
    ClosingLast(segs[1..]);
    PlainStep(segs, Add, false, Lexeme(Num(50.0), Number), [Op(')')]);
    Join11(Num(50.0), Op(')'));
  }

  lemma GroupedRewriteFrom2(segs: seq<string>)
    requires Segs3(segs, "+", "50", ")")
    ensures RewritesTo(segs, Number, false, [Op('+'), Num(50.0), Op(')')])
  {
    OperatorLiteral('+');
    GroupedRewriteFrom3(segs[1..]);
    PlainStep(segs, Number, false, Lexeme(Op('+'), Add), [Num(50.0), Op(')')]);
    Join12(Op('+'), Num(50.0), Op(')'));
  }

  lemma GroupedRewriteFrom1(segs: seq<string>)
    requires Segs4(segs, "50", "+", "50", ")")
    ensures RewritesTo(segs, LeftPar, false, [Num(50.0), Op('+'), Num(50.0), Op(')')])
  {
    TwoDigitLiteral('5', '0');
    GroupedRewriteFrom2(segs[1..]);
    PlainStep(segs, LeftPar, false, Lexeme(Num(50.0), Number), [Op('+'), Num(50.0), Op(')')]);
    Join13(Num(50.0), Op('+'), Num(50.0), Op(')'));
  }

  lemma GroupedRewrite(segs: seq<string>)
    requires Segs5(segs, "(", "50", "+", "50", ")")
    ensures RewritesTo(segs, NoType, true, [Op('('), Num(50.0), Op('+'), Num(50.0), Op(')')])
  {
    OperatorLiteral('(');
    GroupedRewriteFrom1(segs[1..]);
    PlainStep(segs, NoType, true, Lexeme(Op('('), LeftPar), [Num(50.0), Op('+'), Num(50.0), Op(')')]);
    Join14(Op('('), Num(50.0), Op('+'), Num(50.0), Op(')'));
  }

  lemma GroupedInfix()
    ensures Infix(Paren(Bin(Plus, Lit(50.0), Lit(50.0)))) == [Op('('), Num(50.0), Op('+'), Num(50.0), Op(')')]
    ensures !WrongOrder([Op('('), Num(50.0), Op('+'), Num(50.0), Op(')')])
  {
    InfixOrderAccepted(Paren(Bin(Plus, Lit(50.0), Lit(50.0))));
  }

  lemma GroupedTokens(s: string, segs: seq<string>)
    requires GroupedLine(s, segs)
    ensures Tokenize(s) == Ok([Op('('), Num(50.0), Op('+'), Num(50.0), Op(')')])
  {
    assert forall i :: 0 <= i < |"(50 + 50)"| ==> Admissible("(50 + 50)"[i]);
    GroupedSegments(s, segs);
    GroupedRewrite(segs);
    GroupedInfix();
    TokenizeSteps(s, segs, [Op('('), Num(50.0), Op('+'), Num(50.0), Op(')')]);
  }

  lemma GroupedValue()
    ensures Evaluate("(50 + 50)") == Ok(Some(Num(100.0)))
  {
    GroupedTokens("(50 + 50)", ["(", "50", "+", "50", ")"]);
    GroupedInfix();
    EvaluatesAs("(50 + 50)", Paren(Bin(Plus, Lit(50.0), Lit(50.0))));
  }

  lemma GroupedPrintsHundred()
    ensures Prints("(50 + 50)", "100")
  {
    GroupedValue();
    RendersHundred();
    PrintsNumber("(50 + 50)", 100.0, "100");
  }

  // ---------------------------------------------------------------------------
  // "(50)+(50)" is 100 (testParenthesis)

  predicate GroupSumLine(s: string, segs: seq<string>)
  {
    Spells(s, "(50)+(50)") && Segs7(segs, "(", "50", ")", "+", "(", "50", ")")
  }

  lemma GroupSumSegmentsFrom4(s: string, segs: seq<string>)
    requires GroupSumLine(s, segs)
    ensures Segments(s[4..]) == segs[3..]
  {
    SegmentsAtEnd(s, segs);
    OperatorStep(s, 8, segs, 6);
    WordStep(s, 6, 8, segs, 5);
    OperatorStep(s, 5, segs, 4);
    OperatorStep(s, 4, segs, 3);
  }

  lemma GroupSumSegments(s: string, segs: seq<string>)
    requires GroupSumLine(s, segs)
    ensures Segments(s) == segs
  {
    GroupSumSegmentsFrom4(s, segs);
    OperatorStep(s, 3, segs, 2);
    WordStep(s, 1, 3, segs, 1);
    OperatorStep(s, 0, segs, 0);
    assert s[0..] == s && segs[0..] == segs;
  }

  lemma GroupSumRewriteFrom5(segs: seq<string>)
    requires Segs2(segs, "50", ")")
    ensures RewritesTo(segs, LeftPar, false, [Num(50.0), Op(')')])
  {
    TwoDigitLiteral('5', '0');
    ClosingLast(segs[1..]);
    PlainStep(segs, LeftPar, false, Lexeme(Num(50.0), Number), [Op(')')]);
    Join11(Num(50.0), Op(')'));
  }

  lemma GroupSumRewriteFrom4(segs: seq<string>)
    requires Segs3(segs, "(", "50", ")")
    ensures RewritesTo(segs, Add, false, [Op('('), Num(50.0), Op(')')])
  {
    OperatorLiteral('(');
    GroupSumRewriteFrom5(segs[1..]);
    PlainStep(segs, Add, false, Lexeme(Op('('), LeftPar), [Num(50.0), Op(')')]);
    Join12(Op('('), Num(50.0), Op(')'));
  }

  lemma GroupSumRewriteFrom3(segs: seq<string>)
    requires Segs4(segs, "+", "(", "50", ")")
    ensures RewritesTo(segs, RightPar, false, [Op('+'), Op('('), Num(50.0), Op(')')])
  {
    OperatorLiteral('+');
    GroupSumRewriteFrom4(segs[1..]);
    PlainStep(segs, RightPar, false, Lexeme(Op('+'), Add), [Op('('), Num(50.0), Op(')')]);
    Join13(Op('+'), Op('('), Num(50.0), Op(')'));
  }

  lemma GroupSumRewriteFrom2(segs: seq<string>)
    requires Segs5(segs, ")", "+", "(", "50", ")")
    ensures RewritesTo(segs, Number, false, [Op(')'), Op('+'), Op('('), Num(50.0), Op(')')])
  {
    OperatorLiteral(')');
    GroupSumRewriteFrom3(segs[1..]);
    PlainStep(segs, Number, false, Lexeme(Op(')'), RightPar), [Op('+'), Op('('), Num(50.0), Op(')')]);
    Join14(Op(')'), Op('+'), Op('('), Num(50.0), Op(')'));
  }

  lemma GroupSumRewriteFrom1(segs: seq<string>)
    requires Segs6(segs, "50", ")", "+", "(", "50", ")")
    ensures RewritesTo(segs, LeftPar, false, [Num(50.0), Op(')'), Op('+'), Op('('), Num(50.0), Op(')')])
  {
    TwoDigitLiteral('5', '0');
    GroupSumRewriteFrom2(segs[1..]);
    PlainStep(segs, LeftPar, false, Lexeme(Num(50.0), Number), [Op(')'), Op('+'), Op('('), Num(50.0), Op(')')]);
    Join15(Num(50.0), Op(')'), Op('+'), Op('('), Num(50.0), Op(')'));
  }

  lemma GroupSumRewrite(segs: seq<string>)
    requires Segs7(segs, "(", "50", ")", "+", "(", "50", ")")
    ensures RewritesTo(segs, NoType, true, [Op('('), Num(50.0), Op(')'), Op('+'), Op('('), Num(50.0), Op(')')])
  {
    OperatorLiteral('(');
    GroupSumRewriteFrom1(segs[1..]);
    PlainStep(segs, NoType, true, Lexeme(Op('('), LeftPar), [Num(50.0), Op(')'), Op('+'), Op('('), Num(50.0), Op(')')]);
    Join16(Op('('), Num(50.0), Op(')'), Op('+'), Op('('), Num(50.0), Op(')'));
  }

  lemma GroupSumInfix()
    ensures Infix(Bin(Plus, Paren(Lit(50.0)), Paren(Lit(50.0)))) == [Op('('), Num(50.0), Op(')'), Op('+'), Op('('), Num(50.0), Op(')')]
    ensures !WrongOrder([Op('('), Num(50.0), Op(')'), Op('+'), Op('('), Num(50.0), Op(')')])
  {
    InfixOrderAccepted(Bin(Plus, Paren(Lit(50.0)), Paren(Lit(50.0))));
  }

  lemma GroupSumTokens(s: string, segs: seq<string>)
    requires GroupSumLine(s, segs)
    ensures Tokenize(s) == Ok([Op('('), Num(50.0), Op(')'), Op('+'), Op('('), Num(50.0), Op(')')])
  {
    assert forall i :: 0 <= i < |"(50)+(50)"| ==> Admissible("(50)+(50)"[i]);
    GroupSumSegments(s, segs);
    GroupSumRewrite(segs);
    GroupSumInfix();
    TokenizeSteps(s, segs, [Op('('), Num(50.0), Op(')'), Op('+'), Op('('), Num(50.0), Op(')')]);
  }

  lemma GroupSumValue()
    ensures Evaluate("(50)+(50)") == Ok(Some(Num(100.0)))
  {
    GroupSumTokens("(50)+(50)", ["(", "50", ")", "+", "(", "50", ")"]);
    GroupSumInfix();
    EvaluatesAs("(50)+(50)", Bin(Plus, Paren(Lit(50.0)), Paren(Lit(50.0))));
  }

  lemma GroupSumPrintsHundred()
    ensures Prints("(50)+(50)", "100")
  {
    GroupSumValue();
    RendersHundred();
    PrintsNumber("(50)+(50)", 100.0, "100");
  }

  // ---------------------------------------------------------------------------
  // "(+1 + 1)(50)" is 100: the `+` after `(` is dropped and a `*` goes
  // // between `)` and `(` (testParenthesis)

  predicate SignedGroupLine(s: string, segs: seq<string>)
  {
    Spells(s, "(+1 + 1)(50)") && Segs9(segs, "(", "+", "1", "+", "1", ")", "(", "50", ")")
  }

  lemma SignedGroupSegmentsFrom7(s: string, segs: seq<string>)
    requires SignedGroupLine(s, segs)
    ensures Segments(s[7..]) == segs[5..]
  {
    SegmentsAtEnd(s, segs);
    OperatorStep(s, 11, segs, 8);
    WordStep(s, 9, 11, segs, 7);
    OperatorStep(s, 8, segs, 6);
    OperatorStep(s, 7, segs, 5);
  }

  lemma SignedGroupSegmentsFrom3(s: string, segs: seq<string>)
    requires SignedGroupLine(s, segs)
    ensures Segments(s[3..]) == segs[3..]
  {
    SignedGroupSegmentsFrom7(s, segs);
    WordStep(s, 6, 7, segs, 4);
    BlankStep(s, 5, segs, 4);
    OperatorStep(s, 4, segs, 3);
    BlankStep(s, 3, segs, 3);
  }

  lemma SignedGroupSegments(s: string, segs: seq<string>)
    requires SignedGroupLine(s, segs)
    ensures Segments(s) == segs
  {
    SignedGroupSegmentsFrom3(s, segs);
    WordStep(s, 2, 3, segs, 2);
    OperatorStep(s, 1, segs, 1);
    OperatorStep(s, 0, segs, 0);
    assert s[0..] == s && segs[0..] == segs;
  }

  lemma SignedGroupRewriteFrom7(segs: seq<string>)
    requires Segs2(segs, "50", ")")
    ensures RewritesTo(segs, LeftPar, false, [Num(50.0), Op(')')])
  {
    TwoDigitLiteral('5', '0');
    ClosingLast(segs[1..]);
    PlainStep(segs, LeftPar, false, Lexeme(Num(50.0), Number), [Op(')')]);
    Join11(Num(50.0), Op(')'));
  }

  lemma SignedGroupRewriteFrom6(segs: seq<string>)
    requires Segs3(segs, "(", "50", ")")
    ensures RewritesTo(segs, RightPar, false, [Op('*'), Op('('), Num(50.0), Op(')')])
  {
    OperatorLiteral('(');
    SignedGroupRewriteFrom7(segs[1..]);
    StarStep(segs, RightPar, false, Lexeme(Op('('), LeftPar), [Num(50.0), Op(')')]);
    Join22(Op('*'), Op('('), Num(50.0), Op(')'));
  }

  lemma SignedGroupRewriteFrom5(segs: seq<string>)
    requires Segs4(segs, ")", "(", "50", ")")
    ensures RewritesTo(segs, Number, false, [Op(')'), Op('*'), Op('('), Num(50.0), Op(')')])
  {
    OperatorLiteral(')');
    SignedGroupRewriteFrom6(segs[1..]);
    PlainStep(segs, Number, false, Lexeme(Op(')'), RightPar), [Op('*'), Op('('), Num(50.0), Op(')')]);
    Join14(Op(')'), Op('*'), Op('('), Num(50.0), Op(')'));
  }

  lemma SignedGroupRewriteFrom4(segs: seq<string>)
    requires Segs5(segs, "1", ")", "(", "50", ")")
    ensures RewritesTo(segs, Add, false, [Num(1.0), Op(')'), Op('*'), Op('('), Num(50.0), Op(')')])
  {
    DigitLiteral('1');
    SignedGroupRewriteFrom5(segs[1..]);
    PlainStep(segs, Add, false, Lexeme(Num(1.0), Number), [Op(')'), Op('*'), Op('('), Num(50.0), Op(')')]);
    Join15(Num(1.0), Op(')'), Op('*'), Op('('), Num(50.0), Op(')'));
  }

  lemma SignedGroupRewriteFrom3(segs: seq<string>)
    requires Segs6(segs, "+", "1", ")", "(", "50", ")")
    ensures RewritesTo(segs, Number, false, [Op('+'), Num(1.0), Op(')'), Op('*'), Op('('), Num(50.0), Op(')')])
  {
    OperatorLiteral('+');
    SignedGroupRewriteFrom4(segs[1..]);
    PlainStep(segs, Number, false, Lexeme(Op('+'), Add), [Num(1.0), Op(')'), Op('*'), Op('('), Num(50.0), Op(')')]);
    Join16(Op('+'), Num(1.0), Op(')'), Op('*'), Op('('), Num(50.0), Op(')'));
  }

  lemma SignedGroupRewriteFrom2(segs: seq<string>)
    requires Segs7(segs, "1", "+", "1", ")", "(", "50", ")")
    ensures SignsTo(segs, false, [Num(1.0), Op('+'), Num(1.0), Op(')'), Op('*'), Op('('), Num(50.0), Op(')')])
  {
    DigitLiteral('1');
    SignedGroupRewriteFrom3(segs[1..]);
    PlusDropped(segs, Lexeme(Num(1.0), Number), [Op('+'), Num(1.0), Op(')'), Op('*'), Op('('), Num(50.0), Op(')')]);
    Join17(Num(1.0), Op('+'), Num(1.0), Op(')'), Op('*'), Op('('), Num(50.0), Op(')'));
  }

  lemma SignedGroupRewriteFrom1(segs: seq<string>)
    requires Segs8(segs, "+", "1", "+", "1", ")", "(", "50", ")")
    ensures RewritesTo(segs, LeftPar, false, [Num(1.0), Op('+'), Num(1.0), Op(')'), Op('*'), Op('('), Num(50.0), Op(')')])
  {
    OperatorLiteral('+');
    SignedGroupRewriteFrom2(segs[1..]);
    SignStep(segs, LeftPar, false, Lexeme(Op('+'), Add), [Num(1.0), Op('+'), Num(1.0), Op(')'), Op('*'), Op('('), Num(50.0), Op(')')]);
  }

  lemma SignedGroupRewrite(segs: seq<string>)
    requires Segs9(segs, "(", "+", "1", "+", "1", ")", "(", "50", ")")
    ensures RewritesTo(segs, NoType, true, [Op('('), Num(1.0), Op('+'), Num(1.0), Op(')'), Op('*'), Op('('), Num(50.0), Op(')')])
  {
    OperatorLiteral('(');
    SignedGroupRewriteFrom1(segs[1..]);
    PlainStep(segs, NoType, true, Lexeme(Op('('), LeftPar), [Num(1.0), Op('+'), Num(1.0), Op(')'), Op('*'), Op('('), Num(50.0), Op(')')]);
    Join18(Op('('), Num(1.0), Op('+'), Num(1.0), Op(')'), Op('*'), Op('('), Num(50.0), Op(')'));
  }

  lemma SignedGroupInfix()
    ensures Infix(Bin(Times, Paren(Bin(Plus, Lit(1.0), Lit(1.0))), Paren(Lit(50.0)))) == [Op('('), Num(1.0), Op('+'), Num(1.0), Op(')'), Op('*'), Op('('), Num(50.0), Op(')')]
    ensures !WrongOrder([Op('('), Num(1.0), Op('+'), Num(1.0), Op(')'), Op('*'), Op('('), Num(50.0), Op(')')])
  {
    InfixOrderAccepted(Bin(Times, Paren(Bin(Plus, Lit(1.0), Lit(1.0))), Paren(Lit(50.0))));
  }

  lemma SignedGroupTokens(s: string, segs: seq<string>)
    requires SignedGroupLine(s, segs)
    ensures Tokenize(s) == Ok([Op('('), Num(1.0), Op('+'), Num(1.0), Op(')'), Op('*'), Op('('), Num(50.0), Op(')')])
  {
    assert forall i :: 0 <= i < |"(+1 + 1)(50)"| ==> Admissible("(+1 + 1)(50)"[i]);
    SignedGroupSegments(s, segs);
    SignedGroupRewrite(segs);
    SignedGroupInfix();
    TokenizeSteps(s, segs, [Op('('), Num(1.0), Op('+'), Num(1.0), Op(')'), Op('*'), Op('('), Num(50.0), Op(')')]);
  }

  lemma SignedGroupValue()
    ensures Evaluate("(+1 + 1)(50)") == Ok(Some(Num(100.0)))
  {
    SignedGroupTokens("(+1 + 1)(50)", ["(", "+", "1", "+", "1", ")", "(", "50", ")"]);
    SignedGroupInfix();
    EvaluatesAs("(+1 + 1)(50)", Bin(Times, Paren(Bin(Plus, Lit(1.0), Lit(1.0))), Paren(Lit(50.0))));
  }

  lemma SignedGroupPrintsHundred()
    ensures Prints("(+1 + 1)(50)", "100")
  {
    SignedGroupValue();
    RendersHundred();
    PrintsNumber("(+1 + 1)(50)", 100.0, "100");
  }

  // ---------------------------------------------------------------------------
  // "1,25 + 1,25" is 2.50: `,` is a decimal separator (testFloats)

  predicate CommaSumLine(s: string, segs: seq<string>)
  {
    Spells(s, "1,25 + 1,25") && Segs3(segs, "1,25", "+", "1,25")
  }

  lemma CommaSumSegmentsFrom4(s: string, segs: seq<string>)
    requires CommaSumLine(s, segs)
    ensures Segments(s[4..]) == segs[1..]
  {
    SegmentsAtEnd(s, segs);
    WordStep(s, 7, 11, segs, 2);
    BlankStep(s, 6, segs, 2);
    OperatorStep(s, 5, segs, 1);
    BlankStep(s, 4, segs, 1);
  }

  lemma CommaSumSegments(s: string, segs: seq<string>)
    requires CommaSumLine(s, segs)
    ensures Segments(s) == segs
  {
    CommaSumSegmentsFrom4(s, segs);
    WordStep(s, 0, 4, segs, 0);
    assert s[0..] == s && segs[0..] == segs;
  }

  lemma CommaSumRewriteFrom2(segs: seq<string>)
    requires Segs1(segs, "1,25")
    ensures RewritesTo(segs, Add, false, [Num(1.25)])
  {
    TwoDecimalsLiteral('1', ',', '2', '5');
    LastStep(segs, Add, false, Lexeme(Num(1.25), Number));
  }

  lemma CommaSumRewriteFrom1(segs: seq<string>)
    requires Segs2(segs, "+", "1,25")
    ensures RewritesTo(segs, Number, false, [Op('+'), Num(1.25)])
  {
    OperatorLiteral('+');
    CommaSumRewriteFrom2(segs[1..]);
    PlainStep(segs, Number, false, Lexeme(Op('+'), Add), [Num(1.25)]);
    Join11(Op('+'), Num(1.25));
  }

  lemma CommaSumRewrite(segs: seq<string>)
    requires Segs3(segs, "1,25", "+", "1,25")
    ensures RewritesTo(segs, NoType, true, [Num(1.25), Op('+'), Num(1.25)])
  {
    TwoDecimalsLiteral('1', ',', '2', '5');
    CommaSumRewriteFrom1(segs[1..]);
    PlainStep(segs, NoType, true, Lexeme(Num(1.25), Number), [Op('+'), Num(1.25)]);
    Join12(Num(1.25), Op('+'), Num(1.25));
  }

  lemma CommaSumInfix()
    ensures Infix(Bin(Plus, Lit(1.25), Lit(1.25))) == [Num(1.25), Op('+'), Num(1.25)]
    ensures !WrongOrder([Num(1.25), Op('+'), Num(1.25)])
  {
    InfixOrderAccepted(Bin(Plus, Lit(1.25), Lit(1.25)));
  }

  lemma CommaSumTokens(s: string, segs: seq<string>)
    requires CommaSumLine(s, segs)
    ensures Tokenize(s) == Ok([Num(1.25), Op('+'), Num(1.25)])
  {
    assert forall i :: 0 <= i < |"1,25 + 1,25"| ==> Admissible("1,25 + 1,25"[i]);
    CommaSumSegments(s, segs);
    CommaSumRewrite(segs);
    CommaSumInfix();
    TokenizeSteps(s, segs, [Num(1.25), Op('+'), Num(1.25)]);
  }

  lemma CommaSumValue()
    ensures Evaluate("1,25 + 1,25") == Ok(Some(Num(2.5)))
  {
    CommaSumTokens("1,25 + 1,25", ["1,25", "+", "1,25"]);
    CommaSumInfix();
    EvaluatesAs("1,25 + 1,25", Bin(Plus, Lit(1.25), Lit(1.25)));
  }

  lemma CommaSumPrintsTwoDecimals()
    ensures Prints("1,25 + 1,25", "2.50")
  {
    CommaSumValue();
    RendersTwoDecimals();
    PrintsNumber("1,25 + 1,25", 2.5, "2.50");
  }

  // ---------------------------------------------------------------------------
  // "+" is rejected: a sign alone stays and is an operator with nothing before it (testParsingErrorHandling)

  predicate LoneSignLine(s: string, segs: seq<string>)
  {
    Spells(s, "+") && Segs1(segs, "+")
  }

  lemma LoneSignSegments(s: string, segs: seq<string>)
    requires LoneSignLine(s, segs)
    ensures Segments(s) == segs
  {
    SegmentsAtEnd(s, segs);
    OperatorStep(s, 0, segs, 0);
    assert s[0..] == s && segs[0..] == segs;
  }

  lemma LoneSignRewrite(segs: seq<string>)
    requires Segs1(segs, "+")
    ensures RewritesTo(segs, NoType, true, [Op('+')])
  {
    OperatorLiteral('+');
    SignLast(segs, NoType, true, Lexeme(Op('+'), Add));
  }

  lemma LoneSignOrder()
    ensures WrongOrder([Op('+')])
  {
    NonParensSingle(Op('+'));
  }

  lemma LoneSignMisordered(s: string, segs: seq<string>)
    requires LoneSignLine(s, segs)
    ensures Evaluate(s) == Err(MisorderedTokens)
  {
    assert forall i :: 0 <= i < |"+"| ==> Admissible("+"[i]);
    LoneSignSegments(s, segs);
    LoneSignRewrite(segs);
    LoneSignOrder();
    TokenizeMisordered(s, segs, [Op('+')]);
  }

  lemma LoneSignRejected()
    ensures Evaluate("+") == Err(MisorderedTokens)
  {
    LoneSignMisordered("+", ["+"]);
  }

  // ---------------------------------------------------------------------------
  // "()" is rejected: parentheses around nothing hold no number (testParsingErrorHandling)

  predicate EmptyGroupLine(s: string, segs: seq<string>)
  {
    Spells(s, "()") && Segs2(segs, "(", ")")
  }

  lemma EmptyGroupSegments(s: string, segs: seq<string>)
    requires EmptyGroupLine(s, segs)
    ensures Segments(s) == segs
  {
    SegmentsAtEnd(s, segs);
    OperatorStep(s, 1, segs, 1);
    OperatorStep(s, 0, segs, 0);
    assert s[0..] == s && segs[0..] == segs;
  }

  lemma EmptyGroupRewriteFrom1(segs: seq<string>)
    requires Segs1(segs, ")")
    ensures RewritesTo(segs, LeftPar, false, [Op(')')])
  {
    OperatorLiteral(')');
    LastStep(segs, LeftPar, false, Lexeme(Op(')'), RightPar));
  }

  lemma EmptyGroupRewrite(segs: seq<string>)
    requires Segs2(segs, "(", ")")
    ensures RewritesTo(segs, NoType, true, [Op('('), Op(')')])
  {
    OperatorLiteral('(');
    EmptyGroupRewriteFrom1(segs[1..]);
    PlainStep(segs, NoType, true, Lexeme(Op('('), LeftPar), [Op(')')]);
    Join11(Op('('), Op(')'));
  }

  lemma EmptyGroupOrder()
    ensures WrongOrder([Op('('), Op(')')])
  {
    NonParensSingle(Op('('));
    NonParensSnoc([Op('(')], Op(')'));
    Join11(Op('('), Op(')'));
  }

  lemma EmptyGroupMisordered(s: string, segs: seq<string>)
    requires EmptyGroupLine(s, segs)
    ensures Evaluate(s) == Err(MisorderedTokens)
  {
    assert forall i :: 0 <= i < |"()"| ==> Admissible("()"[i]);
    EmptyGroupSegments(s, segs);
    EmptyGroupRewrite(segs);
    EmptyGroupOrder();
    TokenizeMisordered(s, segs, [Op('('), Op(')')]);
  }

  lemma EmptyGroupRejected()
    ensures Evaluate("()") == Err(MisorderedTokens)
  {
    EmptyGroupMisordered("()", ["(", ")"]);
  }

  // ---------------------------------------------------------------------------
  // "13+" is rejected: the line ends with an operator (testParsingErrorHandling)

  predicate SumOpenLine(s: string, segs: seq<string>)
  {
    Spells(s, "13+") && Segs2(segs, "13", "+")
  }

  lemma SumOpenSegments(s: string, segs: seq<string>)
    requires SumOpenLine(s, segs)
    ensures Segments(s) == segs
  {
    SegmentsAtEnd(s, segs);
    OperatorStep(s, 2, segs, 1);
    WordStep(s, 0, 2, segs, 0);
    assert s[0..] == s && segs[0..] == segs;
  }

  lemma SumOpenRewriteFrom1(segs: seq<string>)
    requires Segs1(segs, "+")
    ensures RewritesTo(segs, Number, false, [Op('+')])
  {
    OperatorLiteral('+');
    LastStep(segs, Number, false, Lexeme(Op('+'), Add));
  }

  lemma SumOpenRewrite(segs: seq<string>)
    requires Segs2(segs, "13", "+")
    ensures RewritesTo(segs, NoType, true, [Num(13.0), Op('+')])
  {
    TwoDigitLiteral('1', '3');
    SumOpenRewriteFrom1(segs[1..]);
    PlainStep(segs, NoType, true, Lexeme(Num(13.0), Number), [Op('+')]);
    Join11(Num(13.0), Op('+'));
  }

  lemma SumOpenOrder()
    ensures WrongOrder([Num(13.0), Op('+')])
  {
    NonParensSingle(Num(13.0));
    NonParensSnoc([Num(13.0)], Op('+'));
    Join11(Num(13.0), Op('+'));
  }

  lemma SumOpenMisordered(s: string, segs: seq<string>)
    requires SumOpenLine(s, segs)
    ensures Evaluate(s) == Err(MisorderedTokens)
  {
    assert forall i :: 0 <= i < |"13+"| ==> Admissible("13+"[i]);
    SumOpenSegments(s, segs);
    SumOpenRewrite(segs);
    SumOpenOrder();
    TokenizeMisordered(s, segs, [Num(13.0), Op('+')]);
  }

  lemma OpenSumRejected()
    ensures Evaluate("13+") == Err(MisorderedTokens)
  {
    SumOpenMisordered("13+", ["13", "+"]);
  }

  // ---------------------------------------------------------------------------
  // "31++" is rejected: two operators in a row (testParsingErrorHandling)

  predicate DoublePlusLine(s: string, segs: seq<string>)
  {
    Spells(s, "31++") && Segs3(segs, "31", "+", "+")
  }

  lemma DoublePlusSegments(s: string, segs: seq<string>)
    requires DoublePlusLine(s, segs)
    ensures Segments(s) == segs
  {
    SegmentsAtEnd(s, segs);
    OperatorStep(s, 3, segs, 2);
    OperatorStep(s, 2, segs, 1);
    WordStep(s, 0, 2, segs, 0);
    assert s[0..] == s && segs[0..] == segs;
  }

  lemma DoublePlusRewriteFrom2(segs: seq<string>)
    requires Segs1(segs, "+")
    ensures RewritesTo(segs, Add, false, [Op('+')])
  {
    OperatorLiteral('+');
    LastStep(segs, Add, false, Lexeme(Op('+'), Add));
  }

  lemma DoublePlusRewriteFrom1(segs: seq<string>)
    requires Segs2(segs, "+", "+")
    ensures RewritesTo(segs, Number, false, [Op('+'), Op('+')])
  {
    OperatorLiteral('+');
    DoublePlusRewriteFrom2(segs[1..]);
    PlainStep(segs, Number, false, Lexeme(Op('+'), Add), [Op('+')]);
    Join11(Op('+'), Op('+'));
  }

  lemma DoublePlusRewrite(segs: seq<string>)
    requires Segs3(segs, "31", "+", "+")
    ensures RewritesTo(segs, NoType, true, [Num(31.0), Op('+'), Op('+')])
  {
    TwoDigitLiteral('3', '1');
    DoublePlusRewriteFrom1(segs[1..]);
    PlainStep(segs, NoType, true, Lexeme(Num(31.0), Number), [Op('+'), Op('+')]);
    Join12(Num(31.0), Op('+'), Op('+'));
  }

  lemma DoublePlusOrder()
    ensures WrongOrder([Num(31.0), Op('+'), Op('+')])
  {
    NonParensSingle(Num(31.0));
    NonParensSnoc([Num(31.0)], Op('+'));
    Join11(Num(31.0), Op('+'));
    NonParensSnoc([Num(31.0), Op('+')], Op('+'));
    Join21(Num(31.0), Op('+'), Op('+'));
  }

  lemma DoublePlusMisordered(s: string, segs: seq<string>)
    requires DoublePlusLine(s, segs)
    ensures Evaluate(s) == Err(MisorderedTokens)
  {
    assert forall i :: 0 <= i < |"31++"| ==> Admissible("31++"[i]);
    DoublePlusSegments(s, segs);
    DoublePlusRewrite(segs);
    DoublePlusOrder();
    TokenizeMisordered(s, segs, [Num(31.0), Op('+'), Op('+')]);
  }

  lemma DoublePlusRejected()
    ensures Evaluate("31++") == Err(MisorderedTokens)
  {
    DoublePlusMisordered("31++", ["31", "+", "+"]);
  }

  // ---------------------------------------------------------------------------
  // "(15)()" is rejected: the `*` put before `()` has nothing after it (testParsingErrorHandling)

  predicate EmptyFactorLine(s: string, segs: seq<string>)
  {
    Spells(s, "(15)()") && Segs5(segs, "(", "15", ")", "(", ")")
  }

  lemma EmptyFactorSegmentsFrom1(s: string, segs: seq<string>)
    requires EmptyFactorLine(s, segs)
    ensures Segments(s[1..]) == segs[1..]
  {
    SegmentsAtEnd(s, segs);
    OperatorStep(s, 5, segs, 4);
    OperatorStep(s, 4, segs, 3);
    OperatorStep(s, 3, segs, 2);
    WordStep(s, 1, 3, segs, 1);
  }

  lemma EmptyFactorSegments(s: string, segs: seq<string>)
    requires EmptyFactorLine(s, segs)
    ensures Segments(s) == segs
  {
    EmptyFactorSegmentsFrom1(s, segs);
    OperatorStep(s, 0, segs, 0);
    assert s[0..] == s && segs[0..] == segs;
  }

  lemma EmptyFactorRewriteFrom4(segs: seq<string>)
    requires Segs1(segs, ")")
    ensures RewritesTo(segs, LeftPar, false, [Op(')')])
  {
    OperatorLiteral(')');
    LastStep(segs, LeftPar, false, Lexeme(Op(')'), RightPar));
  }

  lemma EmptyFactorRewriteFrom3(segs: seq<string>)
    requires Segs2(segs, "(", ")")
    ensures RewritesTo(segs, RightPar, false, [Op('*'), Op('('), Op(')')])
  {
    OperatorLiteral('(');
    EmptyFactorRewriteFrom4(segs[1..]);
    StarStep(segs, RightPar, false, Lexeme(Op('('), LeftPar), [Op(')')]);
    Join21(Op('*'), Op('('), Op(')'));
  }

  lemma EmptyFactorRewriteFrom2(segs: seq<string>)
    requires Segs3(segs, ")", "(", ")")
    ensures RewritesTo(segs, Number, false, [Op(')'), Op('*'), Op('('), Op(')')])
  {
    OperatorLiteral(')');
    EmptyFactorRewriteFrom3(segs[1..]);
    PlainStep(segs, Number, false, Lexeme(Op(')'), RightPar), [Op('*'), Op('('), Op(')')]);
    Join13(Op(')'), Op('*'), Op('('), Op(')'));
  }

  lemma EmptyFactorRewriteFrom1(segs: seq<string>)
    requires Segs4(segs, "15", ")", "(", ")")
    ensures RewritesTo(segs, LeftPar, false, [Num(15.0), Op(')'), Op('*'), Op('('), Op(')')])
  {
    TwoDigitLiteral('1', '5');
    EmptyFactorRewriteFrom2(segs[1..]);
    PlainStep(segs, LeftPar, false, Lexeme(Num(15.0), Number), [Op(')'), Op('*'), Op('('), Op(')')]);
    Join14(Num(15.0), Op(')'), Op('*'), Op('('), Op(')'));
  }

  lemma EmptyFactorRewrite(segs: seq<string>)
    requires Segs5(segs, "(", "15", ")", "(", ")")
    ensures RewritesTo(segs, NoType, true, [Op('('), Num(15.0), Op(')'), Op('*'), Op('('), Op(')')])
  {
    OperatorLiteral('(');
    EmptyFactorRewriteFrom1(segs[1..]);
    PlainStep(segs, NoType, true, Lexeme(Op('('), LeftPar), [Num(15.0), Op(')'), Op('*'), Op('('), Op(')')]);
    Join15(Op('('), Num(15.0), Op(')'), Op('*'), Op('('), Op(')'));
  }

  lemma EmptyFactorOrder()
    ensures WrongOrder([Op('('), Num(15.0), Op(')'), Op('*'), Op('('), Op(')')])
  {
    NonParensSingle(Op('('));
    NonParensSnoc([Op('(')], Num(15.0));
    Join11(Op('('), Num(15.0));
    NonParensSnoc([Op('('), Num(15.0)], Op(')'));
    Join21(Op('('), Num(15.0), Op(')'));
    NonParensSnoc([Op('('), Num(15.0), Op(')')], Op('*'));
    Join31(Op('('), Num(15.0), Op(')'), Op('*'));
    NonParensSnoc([Op('('), Num(15.0), Op(')'), Op('*')], Op('('));
    Join41(Op('('), Num(15.0), Op(')'), Op('*'), Op('('));
    NonParensSnoc([Op('('), Num(15.0), Op(')'), Op('*'), Op('(')], Op(')'));
    Join51(Op('('), Num(15.0), Op(')'), Op('*'), Op('('), Op(')'));
  }

  lemma EmptyFactorMisordered(s: string, segs: seq<string>)
    requires EmptyFactorLine(s, segs)
    ensures Evaluate(s) == Err(MisorderedTokens)
  {
    assert forall i :: 0 <= i < |"(15)()"| ==> Admissible("(15)()"[i]);
    EmptyFactorSegments(s, segs);
    EmptyFactorRewrite(segs);
    EmptyFactorOrder();
    TokenizeMisordered(s, segs, [Op('('), Num(15.0), Op(')'), Op('*'), Op('('), Op(')')]);
  }

  lemma EmptyFactorRejected()
    ensures Evaluate("(15)()") == Err(MisorderedTokens)
  {
    EmptyFactorMisordered("(15)()", ["(", "15", ")", "(", ")"]);
  }

  // ---------------------------------------------------------------------------
  // "(14+32-)" is rejected: an operator right before `)` (testParsingErrorHandling)

  predicate GroupOpenLine(s: string, segs: seq<string>)
  {
    Spells(s, "(14+32-)") && Segs6(segs, "(", "14", "+", "32", "-", ")")
  }

  lemma GroupOpenSegmentsFrom3(s: string, segs: seq<string>)
    requires GroupOpenLine(s, segs)
    ensures Segments(s[3..]) == segs[2..]
  {
    SegmentsAtEnd(s, segs);
    OperatorStep(s, 7, segs, 5);
    OperatorStep(s, 6, segs, 4);
    WordStep(s, 4, 6, segs, 3);
    OperatorStep(s, 3, segs, 2);
  }

  lemma GroupOpenSegments(s: string, segs: seq<string>)
    requires GroupOpenLine(s, segs)
    ensures Segments(s) == segs
  {
    GroupOpenSegmentsFrom3(s, segs);
    WordStep(s, 1, 3, segs, 1);
    OperatorStep(s, 0, segs, 0);
    assert s[0..] == s && segs[0..] == segs;
  }

  lemma GroupOpenRewriteFrom5(segs: seq<string>)
    requires Segs1(segs, ")")
    ensures RewritesTo(segs, Subtract, false, [Op(')')])
  {
    OperatorLiteral(')');
    LastStep(segs, Subtract, false, Lexeme(Op(')'), RightPar));
  }

  lemma GroupOpenRewriteFrom4(segs: seq<string>)
    requires Segs2(segs, "-", ")")
    ensures RewritesTo(segs, Number, false, [Op('-'), Op(')')])
  {
    OperatorLiteral('-');
    GroupOpenRewriteFrom5(segs[1..]);
    PlainStep(segs, Number, false, Lexeme(Op('-'), Subtract), [Op(')')]);
    Join11(Op('-'), Op(')'));
  }

  lemma GroupOpenRewriteFrom3(segs: seq<string>)
    requires Segs3(segs, "32", "-", ")")
    ensures RewritesTo(segs, Add, false, [Num(32.0), Op('-'), Op(')')])
  {
    TwoDigitLiteral('3', '2');
    GroupOpenRewriteFrom4(segs[1..]);
    PlainStep(segs, Add, false, Lexeme(Num(32.0), Number), [Op('-'), Op(')')]);
    Join12(Num(32.0), Op('-'), Op(')'));
  }

  lemma GroupOpenRewriteFrom2(segs: seq<string>)
    requires Segs4(segs, "+", "32", "-", ")")
    ensures RewritesTo(segs, Number, false, [Op('+'), Num(32.0), Op('-'), Op(')')])
  {
    OperatorLiteral('+');
    GroupOpenRewriteFrom3(segs[1..]);
    PlainStep(segs, Number, false, Lexeme(Op('+'), Add), [Num(32.0), Op('-'), Op(')')]);
    Join13(Op('+'), Num(32.0), Op('-'), Op(')'));
  }

  lemma GroupOpenRewriteFrom1(segs: seq<string>)
    requires Segs5(segs, "14", "+", "32", "-", ")")
    ensures RewritesTo(segs, LeftPar, false, [Num(14.0), Op('+'), Num(32.0), Op('-'), Op(')')])
  {
    TwoDigitLiteral('1', '4');
    GroupOpenRewriteFrom2(segs[1..]);
    PlainStep(segs, LeftPar, false, Lexeme(Num(14.0), Number), [Op('+'), Num(32.0), Op('-'), Op(')')]);
    Join14(Num(14.0), Op('+'), Num(32.0), Op('-'), Op(')'));
  }

  lemma GroupOpenRewrite(segs: seq<string>)
    requires Segs6(segs, "(", "14", "+", "32", "-", ")")
    ensures RewritesTo(segs, NoType, true, [Op('('), Num(14.0), Op('+'), Num(32.0), Op('-'), Op(')')])
  {
    OperatorLiteral('(');
    GroupOpenRewriteFrom1(segs[1..]);
    PlainStep(segs, NoType, true, Lexeme(Op('('), LeftPar), [Num(14.0), Op('+'), Num(32.0), Op('-'), Op(')')]);
    Join15(Op('('), Num(14.0), Op('+'), Num(32.0), Op('-'), Op(')'));
  }

  lemma GroupOpenOrder()
    ensures WrongOrder([Op('('), Num(14.0), Op('+'), Num(32.0), Op('-'), Op(')')])
  {
    NonParensSingle(Op('('));
    NonParensSnoc([Op('(')], Num(14.0));
    Join11(Op('('), Num(14.0));
    NonParensSnoc([Op('('), Num(14.0)], Op('+'));
    Join21(Op('('), Num(14.0), Op('+'));
    NonParensSnoc([Op('('), Num(14.0), Op('+')], Num(32.0));
    Join31(Op('('), Num(14.0), Op('+'), Num(32.0));
    NonParensSnoc([Op('('), Num(14.0), Op('+'), Num(32.0)], Op('-'));
    Join41(Op('('), Num(14.0), Op('+'), Num(32.0), Op('-'));
    NonParensSnoc([Op('('), Num(14.0), Op('+'), Num(32.0), Op('-')], Op(')'));
    Join51(Op('('), Num(14.0), Op('+'), Num(32.0), Op('-'), Op(')'));
  }

  lemma GroupOpenMisordered(s: string, segs: seq<string>)
    requires GroupOpenLine(s, segs)
    ensures Evaluate(s) == Err(MisorderedTokens)
  {
    assert forall i :: 0 <= i < |"(14+32-)"| ==> Admissible("(14+32-)"[i]);
    GroupOpenSegments(s, segs);
    GroupOpenRewrite(segs);
    GroupOpenOrder();
    TokenizeMisordered(s, segs, [Op('('), Num(14.0), Op('+'), Num(32.0), Op('-'), Op(')')]);
  }

  lemma OpenGroupRejected()
    ensures Evaluate("(14+32-)") == Err(MisorderedTokens)
  {
    GroupOpenMisordered("(14+32-)", ["(", "14", "+", "32", "-", ")"]);
  }

  // ---------------------------------------------------------------------------
  // "142 ++ 3" is rejected: two operators in a row (testParsingErrorHandling)

  predicate SpacedDoublePlusLine(s: string, segs: seq<string>)
  {
    Spells(s, "142 ++ 3") && Segs4(segs, "142", "+", "+", "3")
  }

  lemma SpacedDoublePlusSegmentsFrom4(s: string, segs: seq<string>)
    requires SpacedDoublePlusLine(s, segs)
    ensures Segments(s[4..]) == segs[1..]
  {
    SegmentsAtEnd(s, segs);
    WordStep(s, 7, 8, segs, 3);
    BlankStep(s, 6, segs, 3);
    OperatorStep(s, 5, segs, 2);
    OperatorStep(s, 4, segs, 1);
  }

  lemma SpacedDoublePlusSegments(s: string, segs: seq<string>)
    requires SpacedDoublePlusLine(s, segs)
    ensures Segments(s) == segs
  {
    SpacedDoublePlusSegmentsFrom4(s, segs);
    BlankStep(s, 3, segs, 1);
    WordStep(s, 0, 3, segs, 0);
    assert s[0..] == s && segs[0..] == segs;
  }

  lemma SpacedDoublePlusRewriteFrom3(segs: seq<string>)
    requires Segs1(segs, "3")
    ensures RewritesTo(segs, Add, false, [Num(3.0)])
  {
    DigitLiteral('3');
    LastStep(segs, Add, false, Lexeme(Num(3.0), Number));
  }

  lemma SpacedDoublePlusRewriteFrom2(segs: seq<string>)
    requires Segs2(segs, "+", "3")
    ensures RewritesTo(segs, Add, false, [Op('+'), Num(3.0)])
  {
    OperatorLiteral('+');
    SpacedDoublePlusRewriteFrom3(segs[1..]);
    PlainStep(segs, Add, false, Lexeme(Op('+'), Add), [Num(3.0)]);
    Join11(Op('+'), Num(3.0));
  }

  lemma SpacedDoublePlusRewriteFrom1(segs: seq<string>)
    requires Segs3(segs, "+", "+", "3")
    ensures RewritesTo(segs, Number, false, [Op('+'), Op('+'), Num(3.0)])
  {
    OperatorLiteral('+');
    SpacedDoublePlusRewriteFrom2(segs[1..]);
    PlainStep(segs, Number, false, Lexeme(Op('+'), Add), [Op('+'), Num(3.0)]);
    Join12(Op('+'), Op('+'), Num(3.0));
  }

  lemma SpacedDoublePlusRewrite(segs: seq<string>)
    requires Segs4(segs, "142", "+", "+", "3")
    ensures RewritesTo(segs, NoType, true, [Num(142.0), Op('+'), Op('+'), Num(3.0)])
  {
    ThreeDigitLiteral('1', '4', '2');
    SpacedDoublePlusRewriteFrom1(segs[1..]);
    PlainStep(segs, NoType, true, Lexeme(Num(142.0), Number), [Op('+'), Op('+'), Num(3.0)]);
    Join13(Num(142.0), Op('+'), Op('+'), Num(3.0));
  }

  lemma SpacedDoublePlusOrder()
    ensures WrongOrder([Num(142.0), Op('+'), Op('+'), Num(3.0)])
  {
    NonParensSingle(Num(142.0));
    NonParensSnoc([Num(142.0)], Op('+'));
    Join11(Num(142.0), Op('+'));
    NonParensSnoc([Num(142.0), Op('+')], Op('+'));
    Join21(Num(142.0), Op('+'), Op('+'));
    NonParensSnoc([Num(142.0), Op('+'), Op('+')], Num(3.0));
    Join31(Num(142.0), Op('+'), Op('+'), Num(3.0));
  }

  lemma SpacedDoublePlusMisordered(s: string, segs: seq<string>)
    requires SpacedDoublePlusLine(s, segs)
    ensures Evaluate(s) == Err(MisorderedTokens)
  {
    assert forall i :: 0 <= i < |"142 ++ 3"| ==> Admissible("142 ++ 3"[i]);
    SpacedDoublePlusSegments(s, segs);
    SpacedDoublePlusRewrite(segs);
    SpacedDoublePlusOrder();
    TokenizeMisordered(s, segs, [Num(142.0), Op('+'), Op('+'), Num(3.0)]);
  }

  lemma SpacedDoublePlusRejected()
    ensures Evaluate("142 ++ 3") == Err(MisorderedTokens)
  {
    SpacedDoublePlusMisordered("142 ++ 3", ["142", "+", "+", "3"]);
  }

  // ---------------------------------------------------------------------------
  // "5 000 + 4" fails in the reduction: the blank splits the first number in two
  // // (testParsingErrorHandling)

  predicate SpacedDigitsLine(s: string, segs: seq<string>)
  {
    Spells(s, "5 000 + 4") && Segs4(segs, "5", "000", "+", "4")
  }

  lemma SpacedDigitsSegmentsFrom5(s: string, segs: seq<string>)
    requires SpacedDigitsLine(s, segs)
    ensures Segments(s[5..]) == segs[2..]
  {
    SegmentsAtEnd(s, segs);
    WordStep(s, 8, 9, segs, 3);
    BlankStep(s, 7, segs, 3);
    OperatorStep(s, 6, segs, 2);
    BlankStep(s, 5, segs, 2);
  }

  lemma SpacedDigitsSegments(s: string, segs: seq<string>)
    requires SpacedDigitsLine(s, segs)
    ensures Segments(s) == segs
  {
    SpacedDigitsSegmentsFrom5(s, segs);
    WordStep(s, 2, 5, segs, 1);
    BlankStep(s, 1, segs, 1);
    WordStep(s, 0, 1, segs, 0);
    assert s[0..] == s && segs[0..] == segs;
  }

  lemma SpacedDigitsRewriteFrom3(segs: seq<string>)
    requires Segs1(segs, "4")
    ensures RewritesTo(segs, Add, false, [Num(4.0)])
  {
    DigitLiteral('4');
    LastStep(segs, Add, false, Lexeme(Num(4.0), Number));
  }

  lemma SpacedDigitsRewriteFrom2(segs: seq<string>)
    requires Segs2(segs, "+", "4")
    ensures RewritesTo(segs, Number, false, [Op('+'), Num(4.0)])
  {
    OperatorLiteral('+');
    SpacedDigitsRewriteFrom3(segs[1..]);
    PlainStep(segs, Number, false, Lexeme(Op('+'), Add), [Num(4.0)]);
    Join11(Op('+'), Num(4.0));
  }

  lemma SpacedDigitsRewriteFrom1(segs: seq<string>)
    requires Segs3(segs, "000", "+", "4")
    ensures RewritesTo(segs, Number, false, [Num(0.0), Op('+'), Num(4.0)])
  {
    ThreeDigitLiteral('0', '0', '0');
    SpacedDigitsRewriteFrom2(segs[1..]);
    PlainStep(segs, Number, false, Lexeme(Num(0.0), Number), [Op('+'), Num(4.0)]);
    Join12(Num(0.0), Op('+'), Num(4.0));
  }

  lemma SpacedDigitsRewrite(segs: seq<string>)
    requires Segs4(segs, "5", "000", "+", "4")
    ensures RewritesTo(segs, NoType, true, [Num(5.0), Num(0.0), Op('+'), Num(4.0)])
  {
    DigitLiteral('5');
    SpacedDigitsRewriteFrom1(segs[1..]);
    PlainStep(segs, NoType, true, Lexeme(Num(5.0), Number), [Num(0.0), Op('+'), Num(4.0)]);
    Join13(Num(5.0), Num(0.0), Op('+'), Num(4.0));
  }

  lemma SpacedDigitsOrder()
    ensures !WrongOrder([Num(5.0), Num(0.0), Op('+'), Num(4.0)])
  {
    NonParensSingle(Num(5.0));
    NonParensSnoc([Num(5.0)], Num(0.0));
    Join11(Num(5.0), Num(0.0));
    NonParensSnoc([Num(5.0), Num(0.0)], Op('+'));
    Join21(Num(5.0), Num(0.0), Op('+'));
    NonParensSnoc([Num(5.0), Num(0.0), Op('+')], Num(4.0));
    Join31(Num(5.0), Num(0.0), Op('+'), Num(4.0));
  }

  lemma SpacedDigitsTokens(s: string, segs: seq<string>)
    requires SpacedDigitsLine(s, segs)
    ensures Tokenize(s) == Ok([Num(5.0), Num(0.0), Op('+'), Num(4.0)])
  {
    assert forall i :: 0 <= i < |"5 000 + 4"| ==> Admissible("5 000 + 4"[i]);
    SpacedDigitsSegments(s, segs);
    SpacedDigitsRewrite(segs);
    SpacedDigitsOrder();
    TokenizeSteps(s, segs, [Num(5.0), Num(0.0), Op('+'), Num(4.0)]);
  }

  lemma SpacedDigitsPostfix()
    ensures ToPostfix([Num(5.0), Num(0.0), Op('+'), Num(4.0)]) == Ok([Num(5.0), Num(0.0), Num(4.0), Op('+')])
  {
    var ts := [Num(5.0), Num(0.0), Op('+'), Num(4.0)];
    assert ts[1..] == [Num(0.0), Op('+'), Num(4.0)] && ts[1..][1..] == [Op('+'), Num(4.0)];
    assert ts[1..][1..][1..] == [Num(4.0)] && ts[1..][1..][1..][1..] == [];
    var noChars: seq<char> := [];
    var nil: seq<Token> := [];
    assert noChars + ['+'] == ['+'];
    assert nil + [Num(5.0)] == [Num(5.0)] && [Num(5.0)] + [Num(0.0)] == [Num(5.0), Num(0.0)];
    assert [Num(5.0), Num(0.0)] + [Num(4.0)] == [Num(5.0), Num(0.0), Num(4.0)];
    RunStep(Yard([Num(5.0), Num(0.0)], ['+']), ts[1..][1..][1..], Yard([Num(5.0), Num(0.0), Num(4.0)], ['+']));
    RunStep(Yard([Num(5.0), Num(0.0)], []), ts[1..][1..], Yard([Num(5.0), Num(0.0)], ['+']));
    RunStep(Yard([Num(5.0)], []), ts[1..], Yard([Num(5.0), Num(0.0)], []));
    RunStep(Yard([], []), ts, Yard([Num(5.0)], []));
    assert Drain(Yard([Num(5.0), Num(0.0), Num(4.0)], ['+'])) == [Num(5.0), Num(0.0), Num(4.0), Op('+')] by {
      assert Popped(['+']) == [Op('+')] by {
        assert ['+'][..0] == [];
      }
    }
  }

  /** The one pass adds 0 and 4; no operator is left to join 5 and 4. */
  lemma SpacedDigitsReduce()
    ensures Reduce([Num(5.0), Num(0.0), Num(4.0), Op('+')]) == Err(OperatorNotFound)
  {
    var pf := [Num(5.0), Num(0.0), Num(4.0), Op('+')];
    FirstOperatorAt(pf, 3);
    ReducePass(pf, 3);
    assert pf[..1] + [SetDouble(pf[1], 4.0)] + pf[4..] == [Num(5.0), Num(4.0)];
    FirstOperatorNone([Num(5.0), Num(4.0)]);
    ReduceFailsWith([Num(5.0), Num(4.0)]);
  }

  lemma SpacedDigitsRejected()
    ensures Evaluate("5 000 + 4") == Err(OperatorNotFound)
  {
    SpacedDigitsTokens("5 000 + 4", ["5", "000", "+", "4"]);
    SpacedDigitsPostfix();
    SpacedDigitsReduce();
    EvaluateFails("5 000 + 4", [Num(5.0), Num(0.0), Op('+'), Num(4.0)], [Num(5.0), Num(0.0), Num(4.0), Op('+')], OperatorNotFound);
  }

  // ---------------------------------------------------------------------------
  // "k" is rejected: a letter is a forbidden symbol (testParsingErrorHandling)

  lemma LetterRejected()
    ensures Evaluate("k") == Err(ForbiddenSymbols)
  {
    assert !Admissible("k"[0]);
    TokenizeForbidden("k");
  }

  // ---------------------------------------------------------------------------
  // Rounding and printing (testFloats)

  /** "1,555 + 0": a tie in the hundredths rounds away from zero. */
  lemma RendersTieUp()
    ensures RenderNumber(1.555) == "1.56"
  {
    assert Cents(1.555) == 156;
    assert NatToString(1) == "1";
  }

  /** "1,554 + 0" */
  lemma RendersBelowTie()
    ensures RenderNumber(1.554) == "1.55"
  {
    assert Cents(1.554) == 155;
    assert NatToString(1) == "1";
  }

  /** "1,25 + 1,25": a value with hundredths keeps both decimals. */
  lemma RendersTwoDecimals()
    ensures RenderNumber(2.5) == "2.50"
  {
    assert Cents(2.5) == 250;
    assert NatToString(2) == "2";
  }

  /** "-1,25 - 3,749": the value is rounded before the integer test. */
  lemma RendersRoundedToInteger()
    ensures RenderNumber(-4.999) == "-5"
  {
    assert Cents(-4.999) == -500;
  }

  /** "2.00000 - 2" (tests.h:140-141), and "1,555 * 0" (tests.h:186-187):
      a zero result prints "0". */
  lemma RendersZero()
    ensures RenderNumber(0.0) == "0"
  {
    assert Cents(0.0) == 0;
  }

  /** "      ": a blank line yields no token and prints nothing. */
  lemma BlankLineYieldsNothing()
    ensures Evaluate("      ") == Ok(None)
  {
    EvaluateBlank("      ");
  }
}
