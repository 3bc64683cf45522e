/** The rewriting rules of `parseLine` (parser.cpp) stated on the text of a
    line: a leading sign, a `-` in front of `(` or of a number, a `+` sign
    that vanishes, and the implicit `*`.  Each rule says that two lines
    tokenize alike, or how their tokens differ, whatever the rest of the line
    holds. */
module LineRules {
  import opened Outcomes
  import opened Tokens
  import opened Parser

  // ---------------------------------------------------------------------------
  // Segments of a concatenation

  /** `u` and `w` meet at a delimiter, or one of them is empty: no segment
      spans the seam. */
  predicate Seam(u: string, w: string)
  {
    u == [] || w == [] || u[|u| - 1] in DelimSymbols || w[0] in DelimSymbols
  }

  predicate AllBlank(s: string)
  {
    forall j :: 0 <= j < |s| ==> IsBlank(s[j])
  }

  lemma AppendTail<T>(a: seq<T>, b: seq<T>)
    requires a != []
    ensures (a + b)[0] == a[0] && (a + b)[1..] == a[1..] + b
  {}

  lemma SplitAt<T>(s: seq<T>, k: nat)
    requires k <= |s|
    ensures s == s[..k] + s[k..]
  {}

  lemma JoinAt<T>(a: seq<T>, b: seq<T>)
    ensures (a + b)[..|a|] == a && (a + b)[|a|..] == b
  {}

  lemma AppendAssoc<T>(a: seq<T>, b: seq<T>, c: seq<T>)
    ensures (a + b) + c == a + (b + c)
  {}

  /** Two texts that meet at a delimiter segment apart. */
  lemma {:induction false} SegmentsAppend(u: string, w: string)
    requires Seam(u, w)
    ensures Segments(u + w) == Segments(u) + Segments(w)
    decreases |u|, 1
  {
    if u == [] {
      assert u + w == w;
    } else if IsBlank(u[0]) || u[0] in DelimSymbols {
      var t := u + w;
      assert t[0] == u[0] && t[1..] == u[1..] + w && t[..1] == u[..1];
      SegmentsAppend(u[1..], w);
    } else {
      SegmentsAppendWord(u, w);
    }
  }

  /** The case of `SegmentsAppend` where `u` starts with a word. */
  lemma {:induction false} SegmentsAppendWord(u: string, w: string)
    requires Seam(u, w) && u != [] && u[0] !in DelimSymbols
    ensures Segments(u + w) == Segments(u) + Segments(w)
    decreases |u|, 0
  {
    var k := WordLength(u);
    if k < |u| {
      var a, r := u[..k], u[k..];
      SplitAt(u, k);
      WordLengthAppend(a, r);
      AppendAssoc(a, r, w);
      WordLengthAppend(a, r + w);
      assert r[|r| - 1] == u[|u| - 1];
      SegmentsAppend(r, w);
      SegmentsWord(u);
      SegmentsWord(u + w);
      JoinAt(a, r + w);
    } else {
      WordLengthAppend(u, w);
      SegmentsWord(u + w);
      JoinAt(u, w);
      SegmentsWhole(u);
    }
  }

  /** A line that starts with a word: that word, then the segments of the rest. */
  lemma SegmentsWord(s: string)
    requires s != [] && s[0] !in DelimSymbols
    ensures Segments(s) == [s[..WordLength(s)]] + Segments(s[WordLength(s)..])
  {}

  /** An operator character is a segment of its own. */
  lemma SegmentsOperator(c: char, s: string)
    requires c in OperatorSymbols
    ensures Segments([c] + s) == [[c]] + Segments(s)
  {
    var t := [c] + s;
    assert t[0] == c && t[..1] == [c] && t[1..] == s;
  }

  /** A run of digits and separators followed by a delimiter, or by nothing, is
      one segment. */
  lemma SegmentsLiteral(a: string, s: string)
    requires a != [] && IsNumberLiteral(a)
    requires s == [] || s[0] in DelimSymbols
    ensures Segments(a + s) == [a] + Segments(s)
  {
    SegmentsAppend(a, s);
    forall j | 0 <= j < |a| ensures a[j] !in DelimSymbols {
      assert IsDigit(a[j]) || a[j] in FloatingSymbols;
    }
    SegmentsWhole(a);
  }

  /** Blanks before a text do not change its segments. */
  lemma SegmentsAfterBlanks(g: string, s: string)
    requires AllBlank(g)
    ensures Segments(g + s) == Segments(s)
  {
    SegmentsSkipBlanks(g + s, |g|);
    assert (g + s)[|g|..] == s;
  }

  // ---------------------------------------------------------------------------
  // Forbidden symbols of a concatenation

  lemma ForbiddenAppend(a: string, b: string)
    ensures HasForbiddenSymbol(a + b) <==> HasForbiddenSymbol(a) || HasForbiddenSymbol(b)
  {
    var t := a + b;
    if HasForbiddenSymbol(t) {
      var i :| 0 <= i < |t| && !Admissible(t[i]);
      if i < |a| {
        assert t[i] == a[i];
      } else {
        assert t[i] == b[i - |a|];
      }
    }
    if HasForbiddenSymbol(a) {
      var i :| 0 <= i < |a| && !Admissible(a[i]);
      assert t[i] == a[i];
    }
    if HasForbiddenSymbol(b) {
      var i :| 0 <= i < |b| && !Admissible(b[i]);
      assert t[|a| + i] == b[i];
    }
  }

  /** Operator characters, digits and separators are all admissible. */
  lemma NotForbidden(s: string)
    requires forall j :: 0 <= j < |s| ==> s[j] in OperatorSymbols || IsDigit(s[j]) || s[j] in FloatingSymbols || IsBlank(s[j])
    ensures !HasForbiddenSymbol(s)
  {
    forall j | 0 <= j < |s| ensures Admissible(s[j]) {
      assert s[j] in OperatorSymbols || IsDigit(s[j]) || s[j] in FloatingSymbols || IsBlank(s[j]);
    }
  }

  // ---------------------------------------------------------------------------
  // Rewriting of a concatenation

  /** The type of the token the last segment of `segs` is read as; `NoType`
      when that segment is malformed. */
  function EndKind(segs: seq<string>): TokenType
    requires segs != [] && AllParseable(segs)
  {
    var r := ParseTokenSpec(segs[|segs| - 1]);
    if r.Ok? then r.value.kind else NoType
  }

  /** The last segment is not a `+` or a `-`, which could take the next segment
      as its operand. */
  predicate EndsWithoutSign(segs: seq<string>)
    requires segs != [] && AllParseable(segs)
  {
    EndKind(segs) != Add && EndKind(segs) != Subtract
  }

  lemma AllParseableAppend(a: seq<string>, b: seq<string>)
    requires AllParseable(a) && AllParseable(b)
    ensures AllParseable(a + b)
  {
    var t := a + b;
    forall i | 0 <= i < |t| ensures Parseable(t[i]) {
      if i < |a| { assert t[i] == a[i]; } else { assert t[i] == b[i - |a|]; }
    }
  }

  lemma SegmentsAllParseable(s: string)
    requires !HasForbiddenSymbol(s)
    ensures AllParseable(Segments(s))
  {
    SegmentsParseable(s);
  }

  /** The segments `a` rewrite on their own, and the segments `b` after them
      rewrite from the type of `a`'s last token: an error in `a` is the error
      of the whole. */
  lemma {:induction false} RewriteAppend(a: seq<string>, b: seq<string>, prev: TokenType, first: bool)
    requires a != [] && AllParseable(a) && AllParseable(b) && EndsWithoutSign(a)
    ensures AllParseable(a + b)
    ensures Rewrite(a, prev, first).Err? ==> Rewrite(a + b, prev, first) == Rewrite(a, prev, first)
    ensures Rewrite(a, prev, first).Ok? ==>
      ParseTokenSpec(a[|a| - 1]).Ok? &&
      Rewrite(a + b, prev, first) == Prepend(Rewrite(a, prev, first).value, Rewrite(b, EndKind(a), false))
    decreases |a|, 2
  {
    AllParseableAppend(a, b);
    if ParseTokenSpec(a[0]).Err? {
      assert (a + b)[0] == a[0];
    } else if IsSign(ParseTokenSpec(a[0]).value.kind) && (first || prev == LeftPar) {
      RewriteSignAppend(a, b, prev, first);
    } else {
      RewritePlainAppend(a, b, prev, first);
    }
  }

  predicate IsSign(k: TokenType)
  {
    k == Add || k == Subtract
  }

  /** The case of `RewriteAppend` where `a` starts with a sign. */
  lemma {:induction false} RewriteSignAppend(a: seq<string>, b: seq<string>, prev: TokenType, first: bool)
    requires a != [] && AllParseable(a) && AllParseable(b) && EndsWithoutSign(a) && AllParseable(a + b)
    requires ParseTokenSpec(a[0]).Ok? && IsSign(ParseTokenSpec(a[0]).value.kind) && (first || prev == LeftPar)
    ensures Rewrite(a, prev, first).Err? ==> Rewrite(a + b, prev, first) == Rewrite(a, prev, first)
    ensures Rewrite(a, prev, first).Ok? ==>
      ParseTokenSpec(a[|a| - 1]).Ok? &&
      Rewrite(a + b, prev, first) == Prepend(Rewrite(a, prev, first).value, Rewrite(b, EndKind(a), false))
    decreases |a|, 1
  {
    var rest := a[1..];
    var negative := ParseTokenSpec(a[0]).value.kind == Subtract;
    assert |a| > 1;
    assert rest[|rest| - 1] == a[|a| - 1];
    AppendTail(a, b);
    AfterSignAppend(negative, rest, b);
    assert Rewrite(a + b, prev, first) == AfterSign(negative, rest + b);
    assert Rewrite(a, prev, first) == AfterSign(negative, rest);
  }

  /** The case of `RewriteAppend` where the first token of `a` is kept. */
  lemma {:induction false} RewritePlainAppend(a: seq<string>, b: seq<string>, prev: TokenType, first: bool)
    requires a != [] && AllParseable(a) && AllParseable(b) && EndsWithoutSign(a) && AllParseable(a + b)
    requires ParseTokenSpec(a[0]).Ok? && !(IsSign(ParseTokenSpec(a[0]).value.kind) && (first || prev == LeftPar))
    ensures Rewrite(a, prev, first).Err? ==> Rewrite(a + b, prev, first) == Rewrite(a, prev, first)
    ensures Rewrite(a, prev, first).Ok? ==>
      ParseTokenSpec(a[|a| - 1]).Ok? &&
      Rewrite(a + b, prev, first) == Prepend(Rewrite(a, prev, first).value, Rewrite(b, EndKind(a), false))
    decreases |a|, 1
  {
    AppendTail(a, b);
    KeptHead(a, prev, first);
    KeptHead(a + b, prev, first);
    if |a| == 1 {
      var lx := ParseTokenSpec(a[0]).value;
      var head := Starred(lx, prev) + [lx.token];
      assert a[1..] == [] && a[1..] + b == b && a[|a| - 1] == a[0];
      assert Rewrite(a[1..], lx.kind, false) == Ok([]);
      assert head + [] == head;
    } else {
      var rest := a[1..];
      var lx := ParseTokenSpec(a[0]).value;
      assert rest[|rest| - 1] == a[|a| - 1];
      RewriteAppend(rest, b, lx.kind, false);
      if Rewrite(rest, lx.kind, false).Ok? {
        PrependAssoc(Starred(lx, prev) + [lx.token], Rewrite(rest, lx.kind, false).value, Rewrite(b, EndKind(a), false));
      }
    }
  }

  /** The `*` the rewriting puts before the token `lx` read after a token of
      type `prev`. */
  function Starred(lx: Lexeme, prev: TokenType): seq<Token>
  {
    if (lx.kind == LeftPar && (prev == Number || prev == RightPar)) || (lx.kind == Number && prev == RightPar)
    then [Op('*')] else []
  }

  /** A first token that is not a sign is kept, after the `*` it may need. */
  lemma KeptHead(a: seq<string>, prev: TokenType, first: bool)
    requires a != [] && AllParseable(a)
    requires ParseTokenSpec(a[0]).Ok? && !(IsSign(ParseTokenSpec(a[0]).value.kind) && (first || prev == LeftPar))
    ensures Rewrite(a, prev, first) ==
      Prepend(Starred(ParseTokenSpec(a[0]).value, prev) + [ParseTokenSpec(a[0]).value.token],
              Rewrite(a[1..], ParseTokenSpec(a[0]).value.kind, false))
  {}

  lemma {:induction false} AfterSignAppend(negative: bool, a: seq<string>, b: seq<string>)
    requires a != [] && AllParseable(a) && AllParseable(b) && EndsWithoutSign(a)
    ensures AllParseable(a + b)
    ensures AfterSign(negative, a).Err? ==> AfterSign(negative, a + b) == AfterSign(negative, a)
    ensures AfterSign(negative, a).Ok? ==>
      ParseTokenSpec(a[|a| - 1]).Ok? &&
      AfterSign(negative, a + b) == Prepend(AfterSign(negative, a).value, Rewrite(b, EndKind(a), false))
    decreases |a|, 0
  {
    AllParseableAppend(a, b);
    var rest := a[1..];
    AppendTail(a, b);
    if ParseTokenSpec(a[0]).Ok? {
      var lx := ParseTokenSpec(a[0]).value;
      if !negative || lx.kind == LeftPar || lx.kind == Number {
        var head: seq<Token> :=
          if !negative then [lx.token]
          else if lx.kind == LeftPar then [Num(-1.0), Op('*'), lx.token]
          else [Negated(lx.token)];
        assert AfterSign(negative, a + b) == Prepend(head, Rewrite(rest + b, lx.kind, false));
        assert AfterSign(negative, a) == Prepend(head, Rewrite(rest, lx.kind, false));
        if rest == [] {
          assert rest + b == b && a[|a| - 1] == a[0];
          assert AfterSign(negative, a) == Ok(head + []);
          assert head + [] == head;
        } else {
          assert rest[|rest| - 1] == a[|a| - 1];
          RewriteAppend(rest, b, lx.kind, false);
          if Rewrite(rest, lx.kind, false).Ok? {
            PrependAssoc(head, Rewrite(rest, lx.kind, false).value, Rewrite(b, EndKind(a), false));
          }
        }
      }
    }
  }

  /** With a common beginning that ends without a sign, lines whose endings
      rewrite alike after it rewrite alike. */
  lemma RewriteCongruent(a: seq<string>, b1: seq<string>, b2: seq<string>, prev: TokenType, first: bool)
    requires a != [] && AllParseable(a) && AllParseable(b1) && AllParseable(b2) && EndsWithoutSign(a)
    requires Rewrite(b1, EndKind(a), false) == Rewrite(b2, EndKind(a), false)
    ensures AllParseable(a + b1) && AllParseable(a + b2)
    ensures Rewrite(a + b1, prev, first) == Rewrite(a + b2, prev, first)
  {
    RewriteAppend(a, b1, prev, first);
    RewriteAppend(a, b2, prev, first);
  }

  // ---------------------------------------------------------------------------
  // How single segments are read

  lemma ParseOperator(c: char)
    requires c in OperatorSymbols
    ensures Parseable([c])
    ensures ParseTokenSpec([c]) == Ok(Lexeme(Op(c), SymbolType(c)))
  {
    assert SeparatorCount([c]) == 0 by {
      assert [c][..0] == [];
    }
    assert !IsNumberLiteral([c]) by {
      assert [c][0] == c;
    }
  }

  /** A literal is read as a number, unless it is malformed. */
  lemma ParseLiteral(w: string)
    requires IsNumberLiteral(w)
    ensures Parseable(w)
    ensures ParseTokenSpec(w).Ok? ==> ParseTokenSpec(w).value.kind == Number && ParseTokenSpec(w).value.token.Num?
  {}

  lemma ParseOne(one: string)
    requires one == "1"
    ensures Parseable(one)
    ensures ParseTokenSpec(one) == Ok(Lexeme(Num(1.0), Number))
  {
    assert AllDigits(one);
    ParseIntegerLiteral(one);
    assert one[..0] == [];
    assert DigitsValue(one) == 10 * DigitsValue([]) + DigitValue('1');
  }

  /** A `+` or `-` read where a sign may stand starts a sign. */
  lemma SignHead(a: seq<string>, prev: TokenType, first: bool)
    requires a != [] && AllParseable(a)
    requires ParseTokenSpec(a[0]).Ok? && IsSign(ParseTokenSpec(a[0]).value.kind) && (first || prev == LeftPar)
    ensures Rewrite(a, prev, first) == AfterSign(ParseTokenSpec(a[0]).value.kind == Subtract, a[1..])
  {}

  /** Where a leading sign may stand: first in the line, or after `(`. */
  predicate SignSlot(prev: TokenType, first: bool)
  {
    (prev == NoType && first) || (prev == LeftPar && !first)
  }

  /** A malformed first segment is the error of the whole. */
  lemma ErrorHead(a: seq<string>, prev: TokenType, first: bool, negative: bool)
    requires a != [] && AllParseable(a) && ParseTokenSpec(a[0]).Err?
    ensures Rewrite(a, prev, first) == Err(ParseTokenSpec(a[0]).error)
    ensures AfterSign(negative, a) == Err(ParseTokenSpec(a[0]).error)
  {}

  /** What follows a sign: the operand, negated for `-`. */
  lemma AfterSignHead(negative: bool, a: seq<string>)
    requires a != [] && AllParseable(a) && ParseTokenSpec(a[0]).Ok?
    ensures var lx := ParseTokenSpec(a[0]).value;
      AfterSign(negative, a) ==
        if !negative then Prepend([lx.token], Rewrite(a[1..], lx.kind, false))
        else if lx.kind == LeftPar then Prepend([Num(-1.0), Op('*'), lx.token], Rewrite(a[1..], lx.kind, false))
        else if lx.kind == Number then Prepend([Negated(lx.token)], Rewrite(a[1..], lx.kind, false))
        else Err(WrongTokenAfterNegativeSign)
  {}

  /** The tokens with the number at position `i` negated; anything else is
      left as it is. */
  function NegateAt(r: Result<seq<Token>>, i: nat): Result<seq<Token>>
  {
    if r.Ok? && i < |r.value| && r.value[i].Num? then Ok(r.value[..i] + [Negated(r.value[i])] + r.value[i + 1..]) else r
  }

  // ---------------------------------------------------------------------------
  // The rules on segments

  /** `(` after a number or `)` is read as `* (`. */
  lemma StarBeforeParenRule(s: seq<string>, k: TokenType)
    requires AllParseable(s) && (k == Number || k == RightPar)
    ensures AllParseable(["("] + s) && AllParseable(["*", "("] + s)
    ensures Rewrite(["("] + s, k, false) == Rewrite(["*", "("] + s, k, false)
  {
    ParseOperator('(');
    ParseOperator('*');
    var a := ["("] + s;
    var b := ["*"] + a;
    ConsPair("*", "(", s);
    AllParseableAppend(["("], s);
    AllParseableAppend(["*"], a);
    AppendTail(["("], s);
    AppendTail(["*"], a);
    var r := Rewrite(s, LeftPar, false);
    var open := ParseTokenSpec("(").value;
    var star := ParseTokenSpec("*").value;
    assert Starred(open, k) + [open.token] == [Op('*')] + [Op('(')];
    KeptHead(a, k, false);
    assert Starred(star, k) + [star.token] == [Op('*')];
    KeptHead(b, k, false);
    assert Starred(open, Multiply) + [open.token] == [Op('(')];
    KeptHead(a, Multiply, false);
    PrependAssoc([Op('*')], [Op('(')], r);
  }

  /** A number after `)` is read as `*` and the number. */
  lemma StarBeforeNumberRule(w: string, s: seq<string>)
    requires IsNumberLiteral(w) && AllParseable(s)
    ensures AllParseable([w] + s) && AllParseable(["*", w] + s)
    ensures Rewrite([w] + s, RightPar, false) == Rewrite(["*", w] + s, RightPar, false)
  {
    ParseOperator('*');
    ParseLiteral(w);
    var a := [w] + s;
    var b := ["*"] + a;
    assert ["*", w] + s == b;
    AllParseableAppend([w], s);
    AllParseableAppend(["*"], a);
    AppendTail([w], s);
    AppendTail(["*"], a);
    KeptHead(b, RightPar, false);
    assert [] + [Op('*')] == [Op('*')];
    assert Rewrite(b, RightPar, false) == Prepend([Op('*')], Rewrite(a, Multiply, false));
    if ParseTokenSpec(w).Err? {
      ErrorHead(a, RightPar, false, false);
      ErrorHead(a, Multiply, false, false);
    } else {
      var t := ParseTokenSpec(w).value.token;
      var r := Rewrite(s, Number, false);
      KeptHead(a, RightPar, false);
      assert Rewrite(a, RightPar, false) == Prepend([Op('*')] + [t], r);
      KeptHead(a, Multiply, false);
      assert [] + [t] == [t];
      assert Rewrite(a, Multiply, false) == Prepend([t], r);
      PrependAssoc([Op('*')], [t], r);
    }
  }

  /** A `-` sign before `(` is read as `-1 * (`. */
  lemma NegatedParenRule(s: seq<string>, prev: TokenType, first: bool)
    requires AllParseable(s) && SignSlot(prev, first)
    ensures AllParseable(["-", "("] + s) && AllParseable(["-", "1", "*", "("] + s)
    ensures Rewrite(["-", "("] + s, prev, first) == Rewrite(["-", "1", "*", "("] + s, prev, first)
  {
    NegatedParenShort(s, prev, first);
    NegatedParenLong(s, prev, first);
  }

  lemma NegatedParenShort(s: seq<string>, prev: TokenType, first: bool)
    requires AllParseable(s) && SignSlot(prev, first)
    ensures AllParseable(["-", "("] + s)
    ensures Rewrite(["-", "("] + s, prev, first) == Prepend([Num(-1.0), Op('*'), Op('(')], Rewrite(s, LeftPar, false))
  {
    ParseOperator('-');
    ParseOperator('(');
    var a := ["("] + s;
    AllParseableAppend(["("], s);
    AllParseableAppend(["-"], a);
    assert ["-", "("] + s == ["-"] + a;
    AppendTail(["("], s);
    AppendTail(["-"], a);
    SignHead(["-"] + a, prev, first);
    AfterSignHead(true, a);
  }

  lemma NegatedParenLong(s: seq<string>, prev: TokenType, first: bool)
    requires AllParseable(s) && SignSlot(prev, first)
    ensures AllParseable(["-", "1", "*", "("] + s)
    ensures Rewrite(["-", "1", "*", "("] + s, prev, first) == Prepend([Num(-1.0), Op('*'), Op('(')], Rewrite(s, LeftPar, false))
  {
    var a := ["*", "("] + s;
    StarBeforeParenRule(s, Number);
    StarBeforeParenLeft(s, Number);
    MinusOneHead(a, prev, first);
    assert ["-", "1", "*", "("] + s == ["-", "1"] + a;
    PrependAssoc([Num(-1.0)], [Op('*'), Op('(')], Rewrite(s, LeftPar, false));
    assert [Num(-1.0)] + [Op('*'), Op('(')] == [Num(-1.0), Op('*'), Op('(')];
  }

  /** `-1` as a sign and a number: the number -1. */
  lemma MinusOneHead(a: seq<string>, prev: TokenType, first: bool)
    requires AllParseable(a) && SignSlot(prev, first)
    ensures AllParseable(["-", "1"] + a)
    ensures Rewrite(["-", "1"] + a, prev, first) == Prepend([Num(-1.0)], Rewrite(a, Number, false))
  {
    ParseOperator('-');
    ParseOne("1");
    var c := ["1"] + a;
    AllParseableAppend(["1"], a);
    AllParseableAppend(["-"], c);
    assert ["-", "1"] + a == ["-"] + c;
    AppendTail(["1"], a);
    AppendTail(["-"], c);
    SignHead(["-"] + c, prev, first);
    AfterSignHead(true, c);
    assert Negated(Num(1.0)) == Num(-1.0);
  }

  lemma StarBeforeParenLeft(s: seq<string>, k: TokenType)
    requires AllParseable(s) && (k == Number || k == RightPar)
    ensures AllParseable(["("] + s)
    ensures Rewrite(["("] + s, k, false) == Prepend([Op('*'), Op('(')], Rewrite(s, LeftPar, false))
  {
    ParseOperator('(');
    AllParseableAppend(["("], s);
    AppendTail(["("], s);
    KeptHead(["("] + s, k, false);
    assert [Op('*')] + [Op('(')] == [Op('*'), Op('(')];
  }

  /** A `+` sign before anything but another sign is dropped. */
  lemma PlusDroppedRule(s: seq<string>, prev: TokenType, first: bool)
    requires s != [] && AllParseable(s) && SignSlot(prev, first)
    requires !(ParseTokenSpec(s[0]).Ok? && IsSign(ParseTokenSpec(s[0]).value.kind))
    ensures AllParseable(["+"] + s)
    ensures Rewrite(["+"] + s, prev, first) == Rewrite(s, prev, first)
  {
    ParseOperator('+');
    AllParseableAppend(["+"], s);
    AppendTail(["+"], s);
    SignHead(["+"] + s, prev, first);
    if ParseTokenSpec(s[0]).Err? {
      ErrorHead(s, prev, first, false);
    } else {
      AfterSignHead(false, s);
      KeptHead(s, prev, first);
      assert [] + [ParseTokenSpec(s[0]).value.token] == [ParseTokenSpec(s[0]).value.token];
    }
  }

  /** A `-` sign before a number negates that number. */
  lemma NegatedNumberRule(w: string, s: seq<string>, prev: TokenType, first: bool)
    requires IsNumberLiteral(w) && AllParseable(s) && SignSlot(prev, first)
    ensures AllParseable(["-", w] + s) && AllParseable([w] + s)
    ensures Rewrite(["-", w] + s, prev, first) == NegateAt(Rewrite([w] + s, prev, first), 0)
  {
    ParseOperator('-');
    ParseLiteral(w);
    var a := [w] + s;
    AllParseableAppend([w], s);
    AllParseableAppend(["-"], a);
    assert ["-", w] + s == ["-"] + a;
    AppendTail([w], s);
    AppendTail(["-"], a);
    SignHead(["-"] + a, prev, first);
    if ParseTokenSpec(w).Err? {
      ErrorHead(a, prev, first, true);
    } else {
      NegatedOperand(a, prev, first);
    }
  }

  /** After a sign, a number operand is negated where it would have stood. */
  lemma NegatedOperand(a: seq<string>, prev: TokenType, first: bool)
    requires a != [] && AllParseable(a) && SignSlot(prev, first)
    requires ParseTokenSpec(a[0]).Ok? && ParseTokenSpec(a[0]).value.kind == Number && ParseTokenSpec(a[0]).value.token.Num?
    ensures AfterSign(true, a) == NegateAt(Rewrite(a, prev, first), 0)
  {
    var lx := ParseTokenSpec(a[0]).value;
    var r := Rewrite(a[1..], Number, false);
    AfterSignHead(true, a);
    KeptHead(a, prev, first);
    assert Starred(lx, prev) + [lx.token] == [lx.token];
    NegateFront(lx.token, r);
  }

  lemma NegateFront(t: Token, r: Result<seq<Token>>)
    requires t.Num?
    ensures NegateAt(Prepend([t], r), 0) == Prepend([Negated(t)], r)
  {
    if r.Ok? {
      var v := [t] + r.value;
      assert v[0] == t && v[..0] == [] && v[1..] == r.value;
      assert [] + [Negated(t)] + r.value == [Negated(t)] + r.value;
    }
  }

  /** A `-` sign before an operator other than `(` is an error. */
  lemma NegatedOperatorRule(o: char, s: seq<string>, prev: TokenType, first: bool)
    requires o in {'+', '-', '*', '/', ')'} && AllParseable(s) && SignSlot(prev, first)
    ensures AllParseable(["-", [o]] + s)
    ensures Rewrite(["-", [o]] + s, prev, first) == Err(WrongTokenAfterNegativeSign)
  {
    ParseOperator('-');
    ParseOperator(o);
    var a := [[o]] + s;
    AllParseableAppend([[o]], s);
    AllParseableAppend(["-"], a);
    assert ["-", [o]] + s == ["-"] + a;
    AppendTail([[o]], s);
    AppendTail(["-"], a);
    SignHead(["-"] + a, prev, first);
    AfterSignHead(true, a);
  }

  // ---------------------------------------------------------------------------
  // The text before a rule

  /** The last word of a text that ends in a non-delimiter. */
  lemma {:induction false} LastWord(q: string) returns (u: string, w: string)
    requires q != [] && q[|q| - 1] !in DelimSymbols
    ensures q == u + w && w != []
    ensures u == [] || u[|u| - 1] in DelimSymbols
    ensures forall j :: 0 <= j < |w| ==> w[j] !in DelimSymbols
    decreases |q|
  {
    var init, c := q[..|q| - 1], q[|q| - 1];
    assert q == init + [c];
    if init == [] || init[|init| - 1] in DelimSymbols {
      u, w := init, [c];
    } else {
      var u', w' := LastWord(init);
      u, w := u', w' + [c];
      AppendAssoc(u', w', [c]);
    }
  }

  /** `p` ends in a single-character segment `c`. */
  lemma SegmentsEndOperator(p: string, c: char)
    requires p != [] && p[|p| - 1] == c && c in OperatorSymbols
    ensures Segments(p) == Segments(p[..|p| - 1]) + [[c]]
  {
    var init := p[..|p| - 1];
    assert p == init + [c];
    SegmentsAppend(init, [c]);
    SegmentsOperator(c, []);
    assert [c] + [] == [c];
  }

  /** A character a number or a `)` ends with, after which `(` gets a `*`. */
  predicate ProductEnd(c: char)
  {
    IsDigit(c) || c in FloatingSymbols || c == ')'
  }

  /** A word of a text without forbidden symbols is a number literal. */
  lemma LiteralWord(w: string)
    requires w != [] && !HasForbiddenSymbol(w)
    requires forall j :: 0 <= j < |w| ==> w[j] !in DelimSymbols
    ensures IsNumberLiteral(w) && Segments(w) == [w]
  {
    SegmentsWhole(w);
    forall j | 0 <= j < |w| ensures IsDigit(w[j]) || w[j] in FloatingSymbols {
      assert Admissible(w[j]);
    }
  }

  /** Segments that rewrite without error end in a segment that parses. */
  lemma LastParsed(segs: seq<string>, prev: TokenType, first: bool)
    requires segs != [] && AllParseable(segs) && EndsWithoutSign(segs)
    requires Rewrite(segs, prev, first).Ok?
    ensures ParseTokenSpec(segs[|segs| - 1]).Ok?
  {
    RewriteAppend(segs, [], prev, first);
  }

  /** Segments ending in a number literal end in a number. */
  lemma EndsInLiteral(segs: seq<string>)
    requires segs != [] && AllParseable(segs) && IsNumberLiteral(segs[|segs| - 1])
    ensures EndsWithoutSign(segs)
    ensures Rewrite(segs, NoType, true).Ok? ==> EndKind(segs) == Number
  {
    ParseLiteral(segs[|segs| - 1]);
    if Rewrite(segs, NoType, true).Ok? {
      LastParsed(segs, NoType, true);
    }
  }

  lemma LastOfAppend<T>(a: seq<T>, x: T)
    ensures (a + [x])[|a + [x]| - 1] == x
  {}

  /** A text ending in a number literal: its last segment is that literal. */
  lemma PrefixEndsInNumber(p: string)
    requires p != [] && (IsDigit(p[|p| - 1]) || p[|p| - 1] in FloatingSymbols) && !HasForbiddenSymbol(p)
    ensures AllParseable(Segments(p)) && Segments(p) != [] && EndsWithoutSign(Segments(p))
    ensures Rewrite(Segments(p), NoType, true).Ok? ==> EndKind(Segments(p)) == Number
  {
    var u, w := LastWord(p);
    ForbiddenAppend(u, w);
    LiteralWord(w);
    SegmentsAppend(u, w);
    LastOfAppend(Segments(u), w);
    SegmentsAllParseable(p);
    EndsInLiteral(Segments(p));
  }

  /** A text ending in `)`: its last segment is `)`. */
  lemma PrefixEndsInClose(p: string)
    requires p != [] && p[|p| - 1] == ')' && !HasForbiddenSymbol(p)
    ensures AllParseable(Segments(p)) && Segments(p) != [] && EndsWithoutSign(Segments(p))
    ensures EndKind(Segments(p)) == RightPar
  {
    SegmentsEndOperator(p, ')');
    LastOfAppend(Segments(p[..|p| - 1]), [')']);
    SegmentsAllParseable(p);
    EndsInClose(Segments(p));
  }

  /** Segments whose last one is `)` end in a right parenthesis. */
  lemma EndsInClose(segs: seq<string>)
    requires segs != [] && AllParseable(segs) && segs[|segs| - 1] == [')']
    ensures EndsWithoutSign(segs) && EndKind(segs) == RightPar
  {
    ParseOperator(')');
  }

  /** The segments of the text before a rule, when it ends in a number or a
      `)` and then blanks: they end without a sign, and when they rewrite
      without error their last token is a number or a `)`. */
  lemma PrefixAfterProduct(p: string, gap: string)
    requires p != [] && ProductEnd(p[|p| - 1]) && AllBlank(gap) && !HasForbiddenSymbol(p + gap)
    ensures !AllBlank(p + gap)
    ensures AllParseable(Segments(p + gap)) && Segments(p + gap) != [] && EndsWithoutSign(Segments(p + gap))
    ensures Rewrite(Segments(p + gap), NoType, true).Ok? ==> EndKind(Segments(p + gap)) in {Number, RightPar}
    ensures p[|p| - 1] == ')' ==> EndKind(Segments(p + gap)) == RightPar
  {
    assert (p + gap)[|p| - 1] == p[|p| - 1];
    SegmentsTrailingBlanks(p, gap);
    ForbiddenAppend(p, gap);
    if p[|p| - 1] == ')' {
      PrefixEndsInClose(p);
    } else {
      PrefixEndsInNumber(p);
    }
  }

  /** The segments of the text before a rule, when it ends in `(` and then
      blanks: the last one is `(`. */
  lemma PrefixAfterOpen(p: string, gap: string)
    requires p != [] && p[|p| - 1] == '(' && AllBlank(gap) && !HasForbiddenSymbol(p + gap)
    ensures !AllBlank(p + gap)
    ensures AllParseable(Segments(p + gap)) && Segments(p + gap) != [] && EndsWithoutSign(Segments(p + gap))
    ensures EndKind(Segments(p + gap)) == LeftPar
  {
    var q := p + gap;
    assert q[|p| - 1] == p[|p| - 1];
    SegmentsTrailingBlanks(p, gap);
    SegmentsEndOperator(p, '(');
    ParseOperator('(');
    SegmentsAllParseable(q);
  }

  /** Where a sign may stand: at the start of the line or right after `(`,
      blanks aside. */
  predicate SignContext(p: string)
  {
    p == [] || p[|p| - 1] == '('
  }

  lemma SeamAfter(p: string, gap: string, t: string)
    requires (p == [] || p[|p| - 1] in DelimSymbols) && AllBlank(gap)
    ensures Seam(p + gap, t)
  {
    if gap != [] {
      assert (p + gap)[|p + gap| - 1] == gap[|gap| - 1];
    } else {
      assert p + gap == p;
    }
  }

  /** Two texts whose segments rewrite alike after a token of type `prev`. */
  predicate RewritesAlike(t1: string, t2: string, prev: TokenType, first: bool)
  {
    !HasForbiddenSymbol(t1) && !HasForbiddenSymbol(t2) ==>
      AllParseable(Segments(t1)) && AllParseable(Segments(t2)) &&
      Rewrite(Segments(t1), prev, first) == Rewrite(Segments(t2), prev, first)
  }

  /** After a common beginning `p`, texts that rewrite alike in the place `p`
      leaves them give lines that tokenize alike. */
  lemma TokenizeAlike(p: string, t1: string, t2: string)
    requires Seam(p, t1) && Seam(p, t2)
    requires HasForbiddenSymbol(t1) <==> HasForbiddenSymbol(t2)
    requires AllBlank(p) ==> RewritesAlike(t1, t2, NoType, true)
    requires !AllBlank(p) && !HasForbiddenSymbol(p) ==>
      AllParseable(Segments(p)) && Segments(p) != [] && EndsWithoutSign(Segments(p)) &&
      (Rewrite(Segments(p), NoType, true).Ok? ==> RewritesAlike(t1, t2, EndKind(Segments(p)), false))
    ensures Tokenize(p + t1) == Tokenize(p + t2)
  {
    ForbiddenAppend(p, t1);
    ForbiddenAppend(p, t2);
    if !HasForbiddenSymbol(p + t1) {
      SegmentsAppend(p, t1);
      SegmentsAppend(p, t2);
      SegmentsAllParseable(t1);
      SegmentsAllParseable(t2);
      var q1, q2 := Segments(t1), Segments(t2);
      if AllBlank(p) {
        SegmentsEmpty(p);
        assert [] + q1 == q1 && [] + q2 == q2;
      } else {
        RewriteAppend(Segments(p), q1, NoType, true);
        RewriteAppend(Segments(p), q2, NoType, true);
      }
      assert Rewrite(Segments(p + t1), NoType, true) == Rewrite(Segments(p + t2), NoType, true);
    }
  }

  lemma NotAllBlank(p: string, gap: string)
    requires p != [] && !IsBlank(p[|p| - 1])
    ensures !AllBlank(p + gap)
  {
    assert (p + gap)[|p| - 1] == p[|p| - 1];
  }

  // ---------------------------------------------------------------------------
  // The texts the rules rewrite

  /** `(` and `*(` in front of a text. */
  lemma OpenTexts(s: string)
    ensures HasForbiddenSymbol("(" + s) <==> HasForbiddenSymbol(s)
    ensures HasForbiddenSymbol("*(" + s) <==> HasForbiddenSymbol(s)
    ensures Segments("(" + s) == ["("] + Segments(s)
    ensures Segments("*(" + s) == ["*", "("] + Segments(s)
  {
    NotForbidden("(");
    NotForbidden("*(");
    ForbiddenAppend("(", s);
    ForbiddenAppend("*(", s);
    assert "(" + s == ['('] + s;
    assert "*(" + s == ['*'] + ("(" + s);
    SegmentsOperator('(', s);
    SegmentsOperator('*', "(" + s);
    assert ["*"] + (["("] + Segments(s)) == ["*", "("] + Segments(s);
  }

  /** A number literal starting with `d` in front of a text, and the same
      with `*` before it. */
  lemma NumberTexts(d: char, s: string) returns (w: string, rest: seq<string>)
    requires IsDigit(d) || d in FloatingSymbols
    requires !HasForbiddenSymbol(s)
    ensures !HasForbiddenSymbol([d] + s) && !HasForbiddenSymbol("*" + [d] + s)
    ensures w != [] && IsNumberLiteral(w) && AllParseable(rest)
    ensures Segments([d] + s) == [w] + rest
    ensures Segments("*" + [d] + s) == ["*", w] + rest
  {
    var t := [d] + s;
    NotForbidden([d]);
    NotForbidden("*");
    ForbiddenAppend([d], s);
    ForbiddenAppend("*", t);
    assert "*" + [d] + s == ['*'] + t;
    var k := WordLength(t);
    w := t[..k];
    SegmentsWord(t);
    SplitAt(t, k);
    ForbiddenAppend(w, t[k..]);
    LiteralWord(w);
    rest := Segments(t[k..]);
    SegmentsAllParseable(t[k..]);
    SegmentsOperator('*', t);
    assert ["*"] + ([w] + rest) == ["*", w] + rest;
  }

  /** `HasForbiddenSymbol` of a text split in three. */
  lemma ForbiddenAppend3(a: string, b: string, c: string)
    ensures HasForbiddenSymbol(a + b + c) <==> HasForbiddenSymbol(a) || HasForbiddenSymbol(b) || HasForbiddenSymbol(c)
  {
    ForbiddenAppend(a + b, c);
    ForbiddenAppend(a, b);
  }

  // ---------------------------------------------------------------------------
  // The rules on lines

  /** parser.cpp:128-132: a `(` right after a number or a `)`, blanks between
      them allowed, reads as if a `*` stood before it. */
  lemma ImplicitProductBeforeParen(p: string, gap: string, s: string)
    requires p != [] && ProductEnd(p[|p| - 1]) && AllBlank(gap)
    ensures Tokenize(p + gap + "(" + s) == Tokenize(p + gap + "*(" + s)
  {
    var q := p + gap;
    var t1, t2 := "(" + s, "*(" + s;
    AppendAssoc(q, "(", s);
    AppendAssoc(q, "*(", s);
    OpenTexts(s);
    NotAllBlank(p, gap);
    if !HasForbiddenSymbol(q) {
      PrefixAfterProduct(p, gap);
      if Rewrite(Segments(q), NoType, true).Ok? && !HasForbiddenSymbol(s) {
        SegmentsAllParseable(s);
        StarBeforeParenRule(Segments(s), EndKind(Segments(q)));
      }
    }
    TokenizeAlike(q, t1, t2);
  }

  /** parser.cpp:133-136: a number right after a `)`, blanks between them
      allowed, reads as if a `*` stood before it. */
  lemma ImplicitProductBeforeNumber(p: string, gap: string, d: char, s: string)
    requires p != [] && p[|p| - 1] == ')' && AllBlank(gap) && (IsDigit(d) || d in FloatingSymbols)
    ensures Tokenize(p + gap + [d] + s) == Tokenize(p + gap + "*" + [d] + s)
  {
    var q := p + gap;
    var t1, t2 := [d] + s, "*" + [d] + s;
    AppendAssoc(q, [d], s);
    assert p + gap + "*" + [d] + s == q + t2;
    SeamAfter(p, gap, t1);
    SeamAfter(p, gap, t2);
    NotAllBlank(p, gap);
    NotForbidden([d]);
    NotForbidden("*");
    ForbiddenAppend([d], s);
    ForbiddenAppend3("*", [d], s);
    if !HasForbiddenSymbol(q) {
      PrefixAfterProduct(p, gap);
      if Rewrite(Segments(q), NoType, true).Ok? && !HasForbiddenSymbol(s) {
        var w, rest := NumberTexts(d, s);
        StarBeforeNumberRule(w, rest);
      }
    }
    TokenizeAlike(q, t1, t2);
  }

  // ---------------------------------------------------------------------------
  // Signs

  /** The tokens of the text before a sign, read on its own. */
  function LeadTokens(p: string): Result<seq<Token>>
  {
    if HasForbiddenSymbol(p) then Err(ForbiddenSymbols)
    else
      SegmentsAllParseable(p);
      Rewrite(Segments(p), NoType, true)
  }

  /** How many tokens the text before a sign gives (none on an error). */
  function LeadCount(p: string): nat
  {
    var r := LeadTokens(p);
    if r.Ok? then |r.value| else 0
  }

  /** A sign at the start of a line, or after `(`, blanks aside: the line
      rewrites as the text before it, followed by the rest rewritten in a
      place where a sign is one. */
  lemma SignContextRewrite(p: string, gap: string, t: string) returns (prev: TokenType, first: bool)
    requires SignContext(p) && AllBlank(gap) && !HasForbiddenSymbol(p + gap) && !HasForbiddenSymbol(t)
    ensures SignSlot(prev, first)
    ensures prev == (if p == [] then NoType else LeftPar) && first == (p == [])
    ensures !HasForbiddenSymbol(p + gap + t)
    ensures AllParseable(Segments(t)) && AllParseable(Segments(p + gap + t))
    ensures Rewrite(Segments(p + gap + t), NoType, true) ==
      (var r := LeadTokens(p); if r.Err? then r else Prepend(r.value, Rewrite(Segments(t), prev, first)))
  {
    var q := p + gap;
    ForbiddenAppend(p, gap);
    ForbiddenAppend(q, t);
    SeamAfter(p, gap, t);
    SegmentsAppend(q, t);
    SegmentsAllParseable(t);
    SegmentsAllParseable(q + t);
    var ts := Segments(t);
    if p == [] {
      assert q == gap;
      SegmentsEmpty(q);
      assert Segments(q + t) == ts;
      prev, first := NoType, true;
      assert Segments(p) == [];
      PrependNil(Rewrite(ts, prev, first));
    } else {
      PrefixAfterOpen(p, gap);
      SegmentsTrailingBlanks(p, gap);
      prev, first := LeftPar, false;
      RewriteAppend(Segments(q), ts, NoType, true);
    }
  }

  /** Lines whose segments rewrite alike tokenize alike. */
  lemma TokenizeSame(e1: string, e2: string)
    requires HasForbiddenSymbol(e1) <==> HasForbiddenSymbol(e2)
    requires !HasForbiddenSymbol(e1) ==>
      AllParseable(Segments(e1)) && AllParseable(Segments(e2)) &&
      Rewrite(Segments(e1), NoType, true) == Rewrite(Segments(e2), NoType, true)
    ensures Tokenize(e1) == Tokenize(e2)
  {}

  /** A sign character, blanks, and then a text. */
  lemma SignTexts(c: char, g: string, t: string)
    requires c in OperatorSymbols && AllBlank(g)
    ensures HasForbiddenSymbol([c] + g + t) <==> HasForbiddenSymbol(t)
    ensures Segments([c] + g + t) == [[c]] + Segments(t)
  {
    NotForbidden([c]);
    NotForbidden(g);
    ForbiddenAppend3([c], g, t);
    AppendAssoc([c], g, t);
    SegmentsOperator(c, g + t);
    SegmentsAfterBlanks(g, t);
  }

  /** `-(` with blanks between, and `-1*(`, in front of a text. */
  lemma NegativeParenTexts(g: string, s: string)
    requires AllBlank(g)
    ensures HasForbiddenSymbol("-" + g + "(" + s) <==> HasForbiddenSymbol(s)
    ensures HasForbiddenSymbol("-1*(" + s) <==> HasForbiddenSymbol(s)
    ensures Segments("-" + g + "(" + s) == ["-", "("] + Segments(s)
    ensures Segments("-1*(" + s) == ["-", "1", "*", "("] + Segments(s)
  {
    MinusParenText(g, s);
    MinusOneStarParenText(s);
  }

  lemma MinusParenText(g: string, s: string)
    requires AllBlank(g)
    ensures HasForbiddenSymbol("-" + g + "(" + s) <==> HasForbiddenSymbol(s)
    ensures Segments("-" + g + "(" + s) == ["-", "("] + Segments(s)
  {
    AppendAssoc("-" + g, "(", s);
    SignTexts('-', g, "(" + s);
    OpenTexts(s);
    assert ["-"] + (["("] + Segments(s)) == ["-", "("] + Segments(s);
  }

  /** `-`, blanks and a number literal in front of a text. */
  lemma NegativeLiteralText(g: string, w: string, v: string)
    requires AllBlank(g) && w != [] && IsNumberLiteral(w) && (v == [] || v[0] in DelimSymbols)
    ensures HasForbiddenSymbol("-" + g + w + v) <==> HasForbiddenSymbol(v)
    ensures HasForbiddenSymbol(w + v) <==> HasForbiddenSymbol(v)
    ensures Segments(w + v) == [w] + Segments(v)
    ensures Segments("-" + g + w + v) == ["-", w] + Segments(v)
  {
    LiteralText(w, v);
    SignTexts('-', g, w + v);
    Cons3("-", g, w, v);
    ConsPair(['-'], w, Segments(v));
  }

  lemma LiteralText(w: string, v: string)
    requires w != [] && IsNumberLiteral(w) && (v == [] || v[0] in DelimSymbols)
    ensures HasForbiddenSymbol(w + v) <==> HasForbiddenSymbol(v)
    ensures Segments(w + v) == [w] + Segments(v)
  {
    NotForbidden(w);
    ForbiddenAppend(w, v);
    SegmentsLiteral(w, v);
  }

  lemma ConsPair<T>(x: T, y: T, r: seq<T>)
    ensures [x] + ([y] + r) == [x, y] + r
  {}

  lemma Regroup<T>(a: seq<T>, b: seq<T>, c: seq<T>, d: seq<T>, e: seq<T>)
    ensures a + b + c + d + e == a + (b + c + d + e)
  {}

  lemma Regroup4<T>(a: seq<T>, b: seq<T>, c: seq<T>, d: seq<T>)
    ensures a + b + c + d == a + (b + c + d)
  {}

  lemma Cons3<T>(a: seq<T>, b: seq<T>, c: seq<T>, d: seq<T>)
    ensures a + b + c + d == a + b + (c + d)
  {}

  lemma MinusOneStarParenText(s: string)
    ensures HasForbiddenSymbol("-1*(" + s) <==> HasForbiddenSymbol(s)
    ensures Segments("-1*(" + s) == ["-", "1", "*", "("] + Segments(s)
  {
    var v := "*(" + s;
    assert "-1*(" + s == "-" + [] + "1" + v;
    OpenTexts(s);
    NegativeLiteralText([], "1", v);
    assert ["-", "1"] + (["*", "("] + Segments(s)) == ["-", "1", "*", "("] + Segments(s);
  }

  /** parser.cpp:118-127: `-(`, blanks between them allowed, reads as
      `-1*(`. */
  lemma NegativeParen(p: string, gap: string, g: string, s: string)
    requires SignContext(p) && AllBlank(gap) && AllBlank(g)
    ensures Tokenize(p + gap + "-" + g + "(" + s) == Tokenize(p + gap + "-1*(" + s)
  {
    var t1, t2 := "-" + g + "(" + s, "-1*(" + s;
    var q := p + gap;
    Regroup(q, "-", g, "(", s);
    AppendAssoc(q, "-1*(", s);
    NegativeParenTexts(g, s);
    ForbiddenAppend(p, gap);
    ForbiddenAppend(q, t1);
    ForbiddenAppend(q, t2);
    if !HasForbiddenSymbol(q + t1) {
      var prev, first := SignContextRewrite(p, gap, t1);
      var prev', first' := SignContextRewrite(p, gap, t2);
      SegmentsAllParseable(s);
      NegatedParenRule(Segments(s), prev, first);
    }
    TokenizeSame(q + t1, q + t2);
  }

  /** Two token lists alike in where their numbers and binary operators
      stand. */
  predicate SameShape(a: seq<Token>, b: seq<Token>)
  {
    |a| == |b| &&
    forall j :: 0 <= j < |a| ==> (a[j].Num? <==> b[j].Num?) && (IsBinaryOperator(a[j]) <==> IsBinaryOperator(b[j]))
  }

  lemma SameShapeOrder(a: seq<Token>, b: seq<Token>)
    requires SameShape(a, b)
    ensures OperatorsFollowOperands(a) <==> OperatorsFollowOperands(b)
    ensures a != [] ==> (a[|a| - 1].Num? <==> b[|b| - 1].Num?)
  {}

  /** Negating a number leaves the order check as it was. */
  lemma WrongOrderNegateAt(ts: seq<Token>, i: nat)
    requires i < |ts| && ts[i].Num?
    ensures WrongOrder(ts[..i] + [Negated(ts[i])] + ts[i + 1..]) == WrongOrder(ts)
  {
    var n, n' := ts[i], Negated(ts[i]);
    var x, y := ts[..i], ts[i + 1..];
    assert ts == x + [n] + y;
    var ts' := x + [n'] + y;
    NonParensAppend(x + [n], y);
    NonParensAppend(x, [n]);
    NonParensAppend(x + [n'], y);
    NonParensAppend(x, [n']);
    NonParensSingle(n);
    NonParensSingle(n');
    var a, b := NonParens(x), NonParens(y);
    assert NonParens(ts) == a + [n] + b;
    assert NonParens(ts') == a + [n'] + b;
    assert SameShape(a + [n] + b, a + [n'] + b);
    SameShapeOrder(a + [n] + b, a + [n'] + b);
  }

  lemma PrependNegateAt(v: seq<Token>, r: Result<seq<Token>>)
    ensures Prepend(v, NegateAt(r, 0)) == NegateAt(Prepend(v, r), |v|)
  {
    if r.Ok? && 0 < |r.value| {
      var ts := r.value;
      var all := v + ts;
      assert all[|v|] == ts[0];
      if ts[0].Num? {
        var n := Negated(ts[0]);
        assert all[..|v|] == v && all[|v| + 1..] == ts[1..];
        assert NegateAt(Prepend(v, r), |v|) == Ok(v + [n] + ts[1..]);
        assert ts[..0] + [n] + ts[1..] == [n] + ts[1..];
        assert NegateAt(r, 0) == Ok([n] + ts[1..]);
        assert v + ([n] + ts[1..]) == v + [n] + ts[1..];
      }
    }
  }

  /** Lines whose rewritten segments differ in one negated number tokenize
      the same way, up to that number. */
  lemma TokenizeNegateAt(e1: string, e2: string, i: nat)
    requires HasForbiddenSymbol(e1) <==> HasForbiddenSymbol(e2)
    requires !HasForbiddenSymbol(e1) ==>
      AllParseable(Segments(e1)) && AllParseable(Segments(e2)) &&
      Rewrite(Segments(e1), NoType, true) == NegateAt(Rewrite(Segments(e2), NoType, true), i)
    ensures Tokenize(e1) == NegateAt(Tokenize(e2), i)
  {
    if !HasForbiddenSymbol(e1) {
      var r := Rewrite(Segments(e2), NoType, true);
      if r.Ok? && i < |r.value| && r.value[i].Num? {
        WrongOrderNegateAt(r.value, i);
      }
    }
  }

  /** The segments of a line with a `-` before a number rewrite as those
      of the line without it, that number negated. */
  lemma NegativeNumberRewrite(p: string, gap: string, g: string, w: string, s: string)
    requires SignContext(p) && AllBlank(gap) && AllBlank(g)
    requires w != [] && IsNumberLiteral(w) && (s == [] || s[0] in DelimSymbols)
    requires !HasForbiddenSymbol(p + gap) && !HasForbiddenSymbol(s)
    ensures !HasForbiddenSymbol(p + gap + ("-" + g + w + s)) && !HasForbiddenSymbol(p + gap + (w + s))
    ensures AllParseable(Segments(p + gap + ("-" + g + w + s))) && AllParseable(Segments(p + gap + (w + s)))
    ensures Rewrite(Segments(p + gap + ("-" + g + w + s)), NoType, true) ==
      NegateAt(Rewrite(Segments(p + gap + (w + s)), NoType, true), LeadCount(p))
  {
    var t1, t2 := "-" + g + w + s, w + s;
    NegativeLiteralText(g, w, s);
    var prev, first := SignContextRewrite(p, gap, t1);
    var prev', first' := SignContextRewrite(p, gap, t2);
    SegmentsAllParseable(s);
    var rest := Segments(s);
    assert Segments(t1) == ["-", w] + rest;
    assert Segments(t2) == [w] + rest;
    NegatedNumberRule(w, rest, prev, first);
    var lead := LeadTokens(p);
    if lead.Ok? {
      PrependNegateAt(lead.value, Rewrite([w] + rest, prev, first));
    }
  }

  /** parser.cpp:106-117: a `-` right before a number, blanks between them
      allowed, where a sign is one, negates that number: the line reads as
      the line without the `-`, the number with the opposite sign. At the
      start of a line that is the first token. */
  lemma NegativeNumber(p: string, gap: string, g: string, w: string, s: string)
    requires SignContext(p) && AllBlank(gap) && AllBlank(g)
    requires w != [] && IsNumberLiteral(w) && (s == [] || s[0] in DelimSymbols)
    ensures Tokenize(p + gap + "-" + g + w + s) == NegateAt(Tokenize(p + gap + w + s), LeadCount(p))
  {
    var t1, t2 := "-" + g + w + s, w + s;
    var q := p + gap;
    Regroup(q, "-", g, w, s);
    AppendAssoc(q, w, s);
    NegativeLiteralText(g, w, s);
    ForbiddenAppend(q, t1);
    ForbiddenAppend(q, t2);
    if !HasForbiddenSymbol(q + t1) {
      NegativeNumberRewrite(p, gap, g, w, s);
    }
    TokenizeNegateAt(q + t1, q + t2, LeadCount(p));
  }

  /** `+`, blanks and a non-blank character in front of a text, and the same
      without the `+`. */
  lemma PlusTexts(g: string, c: char, r: string)
    requires AllBlank(g)
    ensures HasForbiddenSymbol("+" + g + [c] + r) <==> HasForbiddenSymbol([c] + r)
    ensures HasForbiddenSymbol(g + [c] + r) <==> HasForbiddenSymbol([c] + r)
    ensures Segments("+" + g + [c] + r) == ["+"] + Segments([c] + r)
    ensures Segments(g + [c] + r) == Segments([c] + r)
  {
    AppendAssoc("+" + g, [c], r);
    AppendAssoc(g, [c], r);
    SignTexts('+', g, [c] + r);
    NotForbidden(g);
    ForbiddenAppend(g, [c] + r);
    SegmentsAfterBlanks(g, [c] + r);
  }

  /** A text starting with a non-blank character other than a sign starts
      with a segment that is not a sign. */
  lemma HeadNotSign(c: char, r: string)
    requires !IsBlank(c) && c != '+' && c != '-' && !HasForbiddenSymbol([c] + r)
    ensures Segments([c] + r) != [] && AllParseable(Segments([c] + r))
    ensures !(ParseTokenSpec(Segments([c] + r)[0]).Ok? && IsSign(ParseTokenSpec(Segments([c] + r)[0]).value.kind))
  {
    var t := [c] + r;
    assert t[0] == c;
    SegmentsAllParseable(t);
    if c in OperatorSymbols {
      SegmentsOperator(c, r);
      ParseOperator(c);
    } else {
      var k := WordLength(t);
      SegmentsWord(t);
      SplitAt(t, k);
      ForbiddenAppend(t[..k], t[k..]);
      LiteralWord(t[..k]);
      ParseLiteral(t[..k]);
    }
  }

  /** parser.cpp:118-127: a `+` where a sign is one is dropped, blanks after
      it allowed, unless another sign follows it. */
  lemma PlusSignDropped(p: string, gap: string, g: string, c: char, r: string)
    requires SignContext(p) && AllBlank(gap) && AllBlank(g)
    requires !IsBlank(c) && c != '+' && c != '-'
    ensures Tokenize(p + gap + "+" + g + [c] + r) == Tokenize(p + gap + g + [c] + r)
  {
    var q := p + gap;
    var t1, t2 := "+" + g + [c] + r, g + [c] + r;
    Regroup(q, "+", g, [c], r);
    Regroup4(q, g, [c], r);
    PlusTexts(g, c, r);
    ForbiddenAppend(p, gap);
    ForbiddenAppend(q, t1);
    ForbiddenAppend(q, t2);
    if !HasForbiddenSymbol(q + t1) {
      var prev, first := SignContextRewrite(p, gap, t1);
      var prev', first' := SignContextRewrite(p, gap, t2);
      HeadNotSign(c, r);
      PlusDroppedRule(Segments([c] + r), prev, first);
    }
    TokenizeSame(q + t1, q + t2);
  }

  /** `-`, blanks and an operator other than `(` in front of a text. */
  lemma MinusOperatorText(g: string, o: char, s: string)
    requires AllBlank(g) && o in OperatorSymbols
    ensures HasForbiddenSymbol("-" + g + [o] + s) <==> HasForbiddenSymbol(s)
    ensures Segments("-" + g + [o] + s) == ["-", [o]] + Segments(s)
  {
    AppendAssoc("-" + g, [o], s);
    SignTexts('-', g, [o] + s);
    NotForbidden([o]);
    ForbiddenAppend([o], s);
    SegmentsOperator(o, s);
    ConsPair("-", [o], Segments(s));
  }

  lemma LeadTokensEmpty()
    ensures LeadTokens([]) == Ok([])
  {
    assert Segments([]) == [];
  }

  /** parser.cpp:106-117: a `-` where a sign is one, followed by an operator
      other than `(`, blanks between them allowed, is an error; the only
      errors that come first are a forbidden symbol anywhere and an error in
      the text before the sign. */
  lemma NegativeSignBeforeOperator(p: string, gap: string, g: string, o: char, s: string)
    requires SignContext(p) && AllBlank(gap) && AllBlank(g) && o in {'+', '-', '*', '/', ')'}
    ensures Tokenize(p + gap + "-" + g + [o] + s) ==
      if HasForbiddenSymbol(p) || HasForbiddenSymbol(s) then Err(ForbiddenSymbols)
      else if LeadTokens(p).Err? then LeadTokens(p)
      else Err(WrongTokenAfterNegativeSign)
    ensures p == [] && !HasForbiddenSymbol(s) ==> Tokenize(p + gap + "-" + g + [o] + s) == Err(WrongTokenAfterNegativeSign)
  {
    var q := p + gap;
    var t := "-" + g + [o] + s;
    Regroup(q, "-", g, [o], s);
    MinusOperatorText(g, o, s);
    NotForbidden(gap);
    ForbiddenAppend(p, gap);
    ForbiddenAppend(q, t);
    if !HasForbiddenSymbol(q + t) {
      var prev, first := SignContextRewrite(p, gap, t);
      SegmentsAllParseable(s);
      NegatedOperatorRule(o, Segments(s), prev, first);
    }
    if p == [] {
      LeadTokensEmpty();
    }
  }
}
