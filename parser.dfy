/** The tokenizer (parser.h, parser.cpp): character validation, segmentation at
    whitespace and delimiters, number-literal parsing with `.` and `,` as
    interchangeable decimal separators, leading-sign handling, implicit `*`
    insertion and the operator-order check.

    Each C++ member function is a method with the same loop; each method is
    proved against a specification function, and the properties the tokenizer
    promises are lemmas about those functions. */
module Parser {
  import opened Outcomes
  import opened Tokens

  // ---------------------------------------------------------------------------
  // Character sets (parser.h)

  /** `allowed_symbols_`: the admissible characters besides the digits. */
  const AllowedSymbols: set<char> := {'+', '-', '*', '/', '(', ')', '.', ',', ' ', '\t'}

  /** `delim_symbols_`: the characters that end a segment. */
  const DelimSymbols: set<char> := {'+', '-', '*', '/', '(', ')', ' ', '\t'}

  /** `floating_symbols_`: the decimal separators. */
  const FloatingSymbols: set<char> := {'.', ','}

  /** The characters that form a one-character operator token. */
  const OperatorSymbols: set<char> := {'+', '-', '*', '/', '(', ')'}

  /** `Set::Contains` */
  predicate Contains(s: set<char>, c: char)
  {
    c in s
  }

  /** How the three sets relate. */
  lemma SymbolSets()
    ensures DelimSymbols == AllowedSymbols - FloatingSymbols
    ensures FloatingSymbols <= AllowedSymbols && FloatingSymbols !! DelimSymbols
    ensures OperatorSymbols == DelimSymbols - {' ', '\t'}
    ensures forall c :: IsDigit(c) ==> c !in AllowedSymbols
  {}

  predicate IsBlank(c: char)
  {
    c == ' ' || c == '\t'
  }

  /** A character `parseLine` lets through: a digit or an allowed symbol. */
  predicate Admissible(c: char)
  {
    IsDigit(c) || Contains(AllowedSymbols, c)
  }

  /** `TOKEN_TYPE`; `NoType` is the enum's `NONE`. */
  datatype TokenType = Add | Subtract | Multiply | Divide | LeftPar | RightPar | Number | NoType

  /** The pair `parseToken` returns. */
  datatype Lexeme = Lexeme(token: Token, kind: TokenType)

  // ---------------------------------------------------------------------------
  // forbiddenSymbolFound

  predicate HasForbiddenSymbol(expr: string)
  {
    exists i :: 0 <= i < |expr| && !Admissible(expr[i])
  }

  method ForbiddenSymbolFound(expr: string) returns (found: bool)
    ensures found <==> exists i :: 0 <= i < |expr| && !Admissible(expr[i])
  {
    for i := 0 to |expr|
      invariant forall j :: 0 <= j < i ==> Admissible(expr[j])
    {
      var c := expr[i];
      if !IsDigit(c) {
        if !Contains(AllowedSymbols, c) {
          return true;
        }
      }
    }
    return false;
  }

  // ---------------------------------------------------------------------------
  // Segmentation: cutOffWhiteSpaces, getDelimPos, splitLine

  /** `cutOffWhiteSpaces`: the suffix that starts at the first non-blank
      character, or the empty text when every character is blank. */
  method CutOffWhiteSpaces(expr: string) returns (rest: string)
    ensures |rest| <= |expr| && rest == expr[|expr| - |rest|..]
    ensures forall j :: 0 <= j < |expr| - |rest| ==> IsBlank(expr[j])
    ensures rest != [] ==> !IsBlank(rest[0])
  {
    for i := 0 to |expr|
      invariant forall j :: 0 <= j < i ==> IsBlank(expr[j])
    {
      if expr[i] != ' ' && expr[i] != '\t' {
        return expr[i..];
      }
    }
    return [];
  }

  /** `getDelimPos`: the index of the first delimiter, `None` for `npos`. */
  method GetDelimPos(expr: string) returns (pos: Option<nat>)
    ensures pos.Some? ==> pos.value < |expr| && expr[pos.value] in DelimSymbols
    ensures pos.Some? ==> forall j :: 0 <= j < pos.value ==> expr[j] !in DelimSymbols
    ensures pos.None? ==> forall j :: 0 <= j < |expr| ==> expr[j] !in DelimSymbols
  {
    for i := 0 to |expr|
      invariant forall j :: 0 <= j < i ==> expr[j] !in DelimSymbols
    {
      var c := expr[i];
      if Contains(DelimSymbols, c) {
        return Some(i);
      }
    }
    return None;
  }

  /** The length of the run of non-delimiters that starts `s`. */
  function WordLength(s: string): (k: nat)
    requires s != [] && s[0] !in DelimSymbols
    ensures 1 <= k <= |s|
    ensures forall j :: 0 <= j < k ==> s[j] !in DelimSymbols
    ensures k < |s| ==> s[k] in DelimSymbols
  {
    if |s| == 1 || s[1] in DelimSymbols then 1 else 1 + WordLength(s[1..])
  }

  /** The segments of a line: blanks are skipped, every other delimiter is a
      segment of its own, and a maximal run of non-delimiters is one segment. */
  function Segments(s: string): seq<string>
    decreases |s|
  {
    if s == [] then []
    else if IsBlank(s[0]) then Segments(s[1..])
    else if s[0] in DelimSymbols then [s[..1]] + Segments(s[1..])
    else
      var k := WordLength(s);
      [s[..k]] + Segments(s[k..])
  }

  lemma {:induction false} SegmentsSkipBlanks(s: string, k: nat)
    requires k <= |s|
    requires forall j :: 0 <= j < k ==> IsBlank(s[j])
    ensures Segments(s) == Segments(s[k..])
  {
    if k > 0 {
      SegmentsSkipBlanks(s[1..], k - 1);
      assert s[1..][k - 1..] == s[k..];
    }
  }

  lemma SegmentsWhole(s: string)
    requires s != [] && !IsBlank(s[0])
    requires forall j :: 0 <= j < |s| ==> s[j] !in DelimSymbols
    ensures Segments(s) == [s]
  {
    assert s[..|s|] == s;
  }

  lemma SegmentsSplit(s: string, d: nat)
    requires 0 < d < |s| && !IsBlank(s[0])
    requires s[d] in DelimSymbols
    requires forall j :: 0 <= j < d ==> s[j] !in DelimSymbols
    ensures Segments(s) == [s[..d]] + Segments(s[d..])
  {}

  /** A word ends where the first delimiter is, whatever follows it. */
  lemma {:induction false} WordLengthAppend(s: string, b: string)
    requires s != [] && s[0] !in DelimSymbols
    requires b == [] || b[0] in DelimSymbols
    ensures WordLength(s + b) == WordLength(s)
    decreases |s|
  {
    if |s| > 1 && s[1] !in DelimSymbols {
      assert (s + b)[1..] == s[1..] + b;
      WordLengthAppend(s[1..], b);
    }
  }

  /** Blanks at the end of a line add no segment. */
  lemma {:induction false} SegmentsTrailingBlanks(s: string, b: string)
    requires forall j :: 0 <= j < |b| ==> IsBlank(b[j])
    ensures Segments(s + b) == Segments(s)
    decreases |s|
  {
    if s == [] {
      assert s + b == b;
      SegmentsEmpty(b);
    } else {
      assert (s + b)[1..] == s[1..] + b;
      if IsBlank(s[0]) || s[0] in DelimSymbols {
        SegmentsTrailingBlanks(s[1..], b);
        assert (s + b)[..1] == s[..1];
      } else {
        WordLengthAppend(s, b);
        var k := WordLength(s);
        assert (s + b)[..k] == s[..k];
        assert (s + b)[k..] == s[k..] + b;
        SegmentsTrailingBlanks(s[k..], b);
      }
    }
  }

  /** `splitLine` */
  method SplitLine(line: string) returns (segs: seq<string>)
    ensures segs == Segments(line)
  {
    var expr := line;
    segs := [];
    while |expr| > 0
      invariant segs + Segments(expr) == Segments(line)
      decreases |expr|
    {
      var rest := CutOffWhiteSpaces(expr);
      SegmentsSkipBlanks(expr, |expr| - |rest|);
      expr := rest;
      if expr == [] {
        break;
      }
      var delim := GetDelimPos(expr);
      if delim.None? {
        SegmentsWhole(expr);
        segs := segs + [expr];
        return;
      }
      var d := delim.value;
      if d == 0 {
        d := d + 1;
      } else {
        SegmentsSplit(expr, d);
      }
      segs := segs + [expr[..d]];
      expr := expr[d..];
    }
  }

  /** A segment is non-empty, holds no blank, and is either one delimiter or
      free of delimiters. */
  predicate SegmentShape(seg: string)
  {
    && seg != []
    && (forall j :: 0 <= j < |seg| ==> !IsBlank(seg[j]))
    && ((|seg| == 1 && seg[0] in DelimSymbols) || (forall j :: 0 <= j < |seg| ==> seg[j] !in DelimSymbols))
  }

  lemma {:induction false} SegmentsShape(s: string)
    ensures forall i :: 0 <= i < |Segments(s)| ==> SegmentShape(Segments(s)[i])
    decreases |s|
  {
    if s == [] {
    } else if IsBlank(s[0]) {
      SegmentsShape(s[1..]);
    } else if s[0] in DelimSymbols {
      SegmentsShape(s[1..]);
    } else {
      var k := WordLength(s);
      SegmentsShape(s[k..]);
    }
  }

  function Concat(ss: seq<string>): string
  {
    if ss == [] then [] else ss[0] + Concat(ss[1..])
  }

  function RemoveBlanks(s: string): (r: string)
    ensures forall j :: 0 <= j < |r| ==> !IsBlank(r[j])
  {
    if s == [] then [] else (if IsBlank(s[0]) then [] else [s[0]]) + RemoveBlanks(s[1..])
  }

  lemma {:induction false} RemoveBlanksKeepsWord(s: string, k: nat)
    requires k <= |s|
    requires forall j :: 0 <= j < k ==> !IsBlank(s[j])
    ensures RemoveBlanks(s) == s[..k] + RemoveBlanks(s[k..])
  {
    if k > 0 {
      RemoveBlanksKeepsWord(s[1..], k - 1);
      assert s[1..][k - 1..] == s[k..];
      assert s[..k] == [s[0]] + s[1..][..k - 1];
    }
  }

  /** The segments, put back together, are the line with its blanks removed. */
  lemma {:induction false} SegmentsConcat(s: string)
    ensures Concat(Segments(s)) == RemoveBlanks(s)
    decreases |s|
  {
    if s == [] {
    } else if IsBlank(s[0]) {
      SegmentsConcat(s[1..]);
    } else if s[0] in DelimSymbols {
      SegmentsConcat(s[1..]);
      assert Concat(Segments(s)) == s[..1] + Concat(Segments(s[1..]));
    } else {
      var k := WordLength(s);
      SegmentsConcat(s[k..]);
      assert Concat(Segments(s)) == s[..k] + Concat(Segments(s[k..]));
      RemoveBlanksKeepsWord(s, k);
    }
  }

  /** A line of blanks has no segments; a line with a non-blank has some. */
  lemma {:induction false} SegmentsEmpty(s: string)
    ensures Segments(s) == [] <==> forall j :: 0 <= j < |s| ==> IsBlank(s[j])
    decreases |s|
  {
    if s != [] && IsBlank(s[0]) {
      SegmentsEmpty(s[1..]);
      assert forall j :: 1 <= j < |s| ==> s[j] == s[1..][j - 1];
    }
  }

  // ---------------------------------------------------------------------------
  // Number literals and parseToken

  predicate IsNumberLiteral(s: string)
  {
    forall j :: 0 <= j < |s| ==> IsDigit(s[j]) || s[j] in FloatingSymbols
  }

  /** What `parseToken` may be given: a run of digits and separators, or one
      operator character (it asserts a non-number has one character and its
      `switch` covers only the six operator characters). */
  predicate Parseable(seg: string)
  {
    IsNumberLiteral(seg) || (|seg| == 1 && seg[0] in OperatorSymbols)
  }

  /** Every segment of an admissible line is something `parseToken` accepts. */
  lemma {:induction false} SegmentsParseable(s: string)
    requires !HasForbiddenSymbol(s)
    ensures forall i :: 0 <= i < |Segments(s)| ==> Parseable(Segments(s)[i])
    decreases |s|
  {
    if s == [] {
    } else {
      assert !HasForbiddenSymbol(s[1..]) by {
        forall j | 0 <= j < |s[1..]| ensures Admissible(s[1..][j]) {
          assert s[1..][j] == s[j + 1];
        }
      }
      if IsBlank(s[0]) || s[0] in DelimSymbols {
        SegmentsParseable(s[1..]);
      } else {
        var k := WordLength(s);
        assert !HasForbiddenSymbol(s[k..]) by {
          forall j | 0 <= j < |s[k..]| ensures Admissible(s[k..][j]) {
            assert s[k..][j] == s[j + k];
          }
        }
        SegmentsParseable(s[k..]);
        assert IsNumberLiteral(s[..k]) by {
          forall j | 0 <= j < k ensures IsDigit(s[..k][j]) || s[..k][j] in FloatingSymbols {
            assert Admissible(s[j]);
          }
        }
      }
    }
  }

  function SymbolType(c: char): TokenType
    requires c in OperatorSymbols
  {
    match c
    case '+' => Add
    case '-' => Subtract
    case '*' => Multiply
    case '/' => Divide
    case '(' => LeftPar
    case ')' => RightPar
  }

  /** The number of decimal separators in a text. */
  function SeparatorCount(s: string): nat
  {
    if s == [] then 0 else SeparatorCount(s[..|s| - 1]) + (if s[|s| - 1] in FloatingSymbols then 1 else 0)
  }

  /** The literal with every separator written as `.` (`token_str`). */
  function Normalize(s: string): (r: string)
    ensures |r| == |s|
    ensures forall j :: 0 <= j < |s| ==> r[j] == if s[j] in FloatingSymbols then '.' else s[j]
  {
    if s == [] then [] else Normalize(s[..|s| - 1]) + [if s[|s| - 1] in FloatingSymbols then '.' else s[|s| - 1]]
  }

  predicate IsDecimalText(s: string)
  {
    forall j :: 0 <= j < |s| ==> IsDigit(s[j]) || s[j] == '.'
  }

  /** The length of the run of digits that starts `s`. */
  function LeadingDigits(s: string): (n: nat)
    ensures n <= |s| && AllDigits(s[..n])
    ensures n < |s| ==> !IsDigit(s[n])
  {
    if s != [] && IsDigit(s[0]) then 1 + LeadingDigits(s[1..]) else 0
  }

  function DigitValue(c: char): nat
    requires IsDigit(c)
  {
    c as int - '0' as int
  }

  /** The number a run of digits denotes (most significant first). */
  function DigitsValue(s: string): nat
    requires AllDigits(s)
  {
    if s == [] then 0 else 10 * DigitsValue(s[..|s| - 1]) + DigitValue(s[|s| - 1])
  }

  /** `n / 10^k`, scaled down one decimal place at a time. */
  function Shifted(n: nat, k: nat): (r: real)
    ensures r >= 0.0
  {
    if k == 0 then n as real else Shifted(n, k - 1) / 10.0
  }

  /** `std::stod` on a text of digits and points: it converts the longest
      prefix of the form digits, optionally a point and more digits, and fails
      when that prefix holds no digit. */
  function Stod(s: string): (r: Result<real>)
    requires IsDecimalText(s)
  {
    var i := LeadingDigits(s);
    var frac := if i < |s| && s[i] == '.' then s[i + 1..] else [];
    var f := LeadingDigits(frac);
    if i + f == 0 then Err(InvalidNumber) else Ok(DecimalValue(s[..i], frac[..f]))
  }

  /** The value of a decimal literal given its integral and fractional digits. */
  function DecimalValue(intDigits: string, fracDigits: string): real
    requires AllDigits(intDigits) && AllDigits(fracDigits)
  {
    DigitsValue(intDigits) as real + Shifted(DigitsValue(fracDigits), |fracDigits|)
  }

  /** On a run of digits, `Stod` reads all of it. */
  lemma StodInteger(a: string)
    requires AllDigits(a)
    ensures IsDecimalText(a)
    ensures Stod(a) == if a == [] then Err(InvalidNumber) else Ok(DecimalValue(a, []))
    ensures DecimalValue(a, []) == DigitsValue(a) as real
  {
    LeadingDigitsAll(a);
    assert a[..|a|] == a;
    var frac: string := [];
    assert LeadingDigits(frac) == 0;
    assert frac[..0] == [];
  }

  /** On a literal with one point, `Stod` reads all of it: the integral
      digits, then the fractional digits scaled by their count. */
  lemma StodDecimal(a: string, b: string)
    requires AllDigits(a) && AllDigits(b)
    ensures IsDecimalText(a + "." + b)
    ensures Stod(a + "." + b) ==
      if a == [] && b == [] then Err(InvalidNumber) else Ok(DecimalValue(a, b))
  {
    var s := a + "." + b;
    assert IsDecimalText(s) by {
      forall j | 0 <= j < |s| ensures IsDigit(s[j]) || s[j] == '.' {
        if j < |a| { assert s[j] == a[j]; } else if j > |a| { assert s[j] == b[j - |a| - 1]; }
      }
    }
    LeadingDigitsStop(a, "." + b);
    assert s == a + ("." + b);
    var i := LeadingDigits(s);
    assert i == |a|;
    assert s[i] == '.';
    var frac := s[i + 1..];
    assert frac == b;
    LeadingDigitsAll(b);
    var f := LeadingDigits(frac);
    assert f == |b|;
    assert frac[..f] == b;
    assert s[..i] == a;
  }

  lemma {:induction false} LeadingDigitsAll(a: string)
    requires AllDigits(a)
    ensures LeadingDigits(a) == |a|
  {
    if a != [] {
      LeadingDigitsAll(a[1..]);
    }
  }

  lemma {:induction false} LeadingDigitsStop(a: string, b: string)
    requires AllDigits(a) && b != [] && !IsDigit(b[0])
    ensures LeadingDigits(a + b) == |a|
  {
    if a != [] {
      assert (a + b)[1..] == a[1..] + b;
      LeadingDigitsStop(a[1..], b);
    }
  }

  /** `parseToken`: a literal with more than one separator fails; a run of
      digits and separators is a number (`,` read as `.`); anything else is
      the operator named by its one character. */
  function ParseTokenSpec(seg: string): (r: Result<Lexeme>)
    requires Parseable(seg)
    ensures SeparatorCount(seg) > 1 ==> r == Err(MultipleFloatingPoints)
    ensures r.Ok? ==> (r.value.kind == Number <==> r.value.token.Num?)
    ensures r.Ok? && r.value.token.Op? ==> r.value.token.c in OperatorSymbols && r.value.kind == SymbolType(r.value.token.c)
    ensures r.Err? ==> r.error in {MultipleFloatingPoints, InvalidNumber}
  {
    if SeparatorCount(seg) > 1 then Err(MultipleFloatingPoints)
    else if IsNumberLiteral(seg) then
      var v :- Stod(Normalize(seg));
      Ok(Lexeme(Num(v), Number))
    else Ok(Lexeme(Op(seg[0]), SymbolType(seg[0])))
  }

  method ParseToken(literal: string) returns (r: Result<Lexeme>)
    requires Parseable(literal)
    ensures r == ParseTokenSpec(literal)
  {
    var tokenStr := "";
    var floatingPoints: nat := 0;
    var isNumber := true;
    for i := 0 to |literal|
      invariant tokenStr == Normalize(literal[..i])
      invariant floatingPoints == SeparatorCount(literal[..i])
      invariant isNumber == IsNumberLiteral(literal[..i])
    {
      var c := literal[i];
      assert literal[..i + 1][..i] == literal[..i];
      if !IsDigit(c) && !Contains(FloatingSymbols, c) {
        isNumber := false;
      }
      if Contains(FloatingSymbols, c) {
        tokenStr := tokenStr + ".";
        floatingPoints := floatingPoints + 1;
      } else {
        tokenStr := tokenStr + [c];
      }
    }
    assert literal[..|literal|] == literal;
    if floatingPoints > 1 {
      return Err(MultipleFloatingPoints);
    } else if isNumber {
      var v := Stod(tokenStr);
      if v.Err? {
        return Err(v.error);
      }
      return Ok(Lexeme(Num(v.value), Number));
    } else {
      return Ok(Lexeme(Op(literal[0]), SymbolType(literal[0])));
    }
  }

  /** A literal of digits reads as its decimal value, and so does one with a
      single separator of either kind: `.` and `,` are interchangeable. */
  lemma ParseIntegerLiteral(a: string)
    requires AllDigits(a)
    ensures Parseable(a)
    ensures ParseTokenSpec(a) ==
      if a == [] then Err(InvalidNumber) else Ok(Lexeme(Num(DigitsValue(a) as real), Number))
  {
    assert Normalize(a) == a;
    SeparatorCountDigits(a);
    StodInteger(a);
  }

  lemma ParseDecimalLiteral(a: string, sep: char, b: string)
    requires AllDigits(a) && AllDigits(b) && sep in FloatingSymbols
    ensures Parseable(a + [sep] + b)
    ensures ParseTokenSpec(a + [sep] + b) ==
      if a == [] && b == [] then Err(InvalidNumber) else Ok(Lexeme(Num(DecimalValue(a, b)), Number))
  {
    var s := a + [sep] + b;
    assert IsNumberLiteral(s) by {
      forall j | 0 <= j < |s| ensures IsDigit(s[j]) || s[j] in FloatingSymbols {
        if j < |a| { assert s[j] == a[j]; } else if j > |a| { assert s[j] == b[j - |a| - 1]; }
      }
    }
    assert Normalize(s) == a + "." + b;
    SeparatorCountDigits(a);
    SeparatorCountDigits(b);
    SeparatorCountAppend(a + [sep], b);
    SeparatorCountAppend(a, [sep]);
    assert SeparatorCount([sep]) == 1 by {
      assert [sep][..0] == [];
    }
    StodDecimal(a, b);
  }

  /** `parseToken` as written: its separator counter is a `uint8_t`, so the
      count it compares with 1 is the number of separators modulo 256. */
  function ParseTokenAsWritten(seg: string): (r: Result<Lexeme>)
    requires Parseable(seg)
    ensures SeparatorCount(seg) % 256 > 1 ==> r == Err(MultipleFloatingPoints)
    ensures SeparatorCount(seg) < 256 ==> r == ParseTokenSpec(seg)
  {
    if SeparatorCount(seg) % 256 > 1 then Err(MultipleFloatingPoints)
    else if IsNumberLiteral(seg) then
      var v :- Stod(Normalize(seg));
      Ok(Lexeme(Num(v), Number))
    else Ok(Lexeme(Op(seg[0]), SymbolType(seg[0])))
  }

  function Repeat(c: char, n: nat): (r: string)
    ensures |r| == n && forall j :: 0 <= j < n ==> r[j] == c
  {
    if n == 0 then [] else Repeat(c, n - 1) + [c]
  }

  /** With 257 commas (or any count one more than a multiple of 256, from 257
      on) after a digit, the wrapped counter reads 1: the literal is accepted
      and `stod` stops at the second separator, reading 1; the intended check
      rejects it. */
  lemma {:induction false} SeparatorCounterWraps(n: nat)
    requires n > 1 && n % 256 == 1
    ensures Parseable("1" + Repeat(',', n))
    ensures ParseTokenAsWritten("1" + Repeat(',', n)) == Ok(Lexeme(Num(1.0), Number))
    ensures ParseTokenSpec("1" + Repeat(',', n)) == Err(MultipleFloatingPoints)
  {
    var s := "1" + Repeat(',', n);
    assert IsNumberLiteral(s) by {
      forall j | 0 <= j < |s| ensures IsDigit(s[j]) || s[j] in FloatingSymbols {
        if j > 0 { assert s[j] == Repeat(',', n)[j - 1]; }
      }
    }
    SeparatorCountRepeat(n);
    SeparatorCountAppend("1", Repeat(',', n));
    assert SeparatorCount("1") == 0 by { assert "1"[..0] == []; }
    var t := Normalize(s);
    assert t == "1" + Repeat('.', n);
    LeadingDigitsStop("1", Repeat('.', n));
    var frac := t[2..];
    assert frac[0] == '.';
    assert LeadingDigits(frac) == 0;
    assert t[..1] == "1" && frac[..0] == [];
    assert DigitsValue("1") == 1 by { assert "1"[..0] == []; }
  }

  lemma {:induction false} SeparatorCountRepeat(n: nat)
    ensures SeparatorCount(Repeat(',', n)) == n
  {
    if n > 0 {
      assert Repeat(',', n)[..n - 1] == Repeat(',', n - 1);
      SeparatorCountRepeat(n - 1);
    }
  }

  lemma {:induction false} SeparatorCountDigits(a: string)
    requires AllDigits(a)
    ensures SeparatorCount(a) == 0
  {
    if a != [] {
      SeparatorCountDigits(a[..|a| - 1]);
    }
  }

  lemma {:induction false} SeparatorCountAppend(a: string, b: string)
    ensures SeparatorCount(a + b) == SeparatorCount(a) + SeparatorCount(b)
    decreases |b|
  {
    if b != [] {
      assert (a + b)[..|a + b| - 1] == a + b[..|b| - 1];
      SeparatorCountAppend(a, b[..|b| - 1]);
    } else {
      assert a + b == a;
    }
  }

  // ---------------------------------------------------------------------------
  // parseLine: signs and implicit multiplication

  /** A number after a `-` sign: its value times -1. */
  function Negated(t: Token): (r: Token)
    requires t.Num?
    ensures r == Num(-t.v)
  {
    SetDouble(t, t.v * -1.0)
  }

  function Prepend(prefix: seq<Token>, r: Result<seq<Token>>): (p: Result<seq<Token>>)
    ensures p.Ok? <==> r.Ok?
    ensures p.Ok? ==> p.value == prefix + r.value
    ensures p.Err? ==> p.error == r.error
  {
    match r
    case Ok(ts) => Ok(prefix + ts)
    case Err(e) => Err(e)
  }

  predicate AllParseable(segs: seq<string>)
  {
    forall i :: 0 <= i < |segs| ==> Parseable(segs[i])
  }

  /** The tokens of the segments `segs`, given the type of the token before
      them (`prev_type`) and whether no token has been produced yet:
      - a `+` or `-` that comes first or directly after `(` is a sign, handled
        by `AfterSign`;
      - a `*` goes between a number or `)` and a following `(`, and between a
        `)` and a following number;
      - every other token is kept as it is. */
  function Rewrite(segs: seq<string>, prev: TokenType, first: bool): Result<seq<Token>>
    requires AllParseable(segs)
    decreases |segs|, 1
  {
    if segs == [] then Ok([])
    else
      var lx :- ParseTokenSpec(segs[0]);
      if (lx.kind == Add || lx.kind == Subtract) && (first || prev == LeftPar) then
        AfterSign(lx.kind == Subtract, segs[1..])
      else
        var star :=
          if (lx.kind == LeftPar && (prev == Number || prev == RightPar)) || (lx.kind == Number && prev == RightPar)
          then [Op('*')] else [];
        Prepend(star + [lx.token], Rewrite(segs[1..], lx.kind, false))
  }

  /** The tokens after a sign.  The sign itself is dropped once a token
      follows it: a `-` negates a following number, becomes `-1 *` before a
      following `(`, and fails before anything else; a `+` is dropped whatever
      follows.  A sign that ends the line stays, for the order check to reject. */
  function AfterSign(negative: bool, segs: seq<string>): Result<seq<Token>>
    requires AllParseable(segs)
    decreases |segs|, 0
  {
    if segs == [] then Ok([Op(if negative then '-' else '+')])
    else
      var lx :- ParseTokenSpec(segs[0]);
      if !negative then Prepend([lx.token], Rewrite(segs[1..], lx.kind, false))
      else if lx.kind == LeftPar then Prepend([Num(-1.0), Op('*'), lx.token], Rewrite(segs[1..], lx.kind, false))
      else if lx.kind == Number then Prepend([Negated(lx.token)], Rewrite(segs[1..], lx.kind, false))
      else Err(WrongTokenAfterNegativeSign)
  }

  /** `parseLine`, end to end. */
  function Tokenize(expr: string): Result<seq<Token>>
  {
    if HasForbiddenSymbol(expr) then Err(ForbiddenSymbols)
    else
      SegmentsParseable(expr);
      var tokens :- Rewrite(Segments(expr), NoType, true);
      if WrongOrder(tokens) then Err(MisorderedTokens) else Ok(tokens)
  }

  /** Blanks before and after a line change neither its segments nor what
      it is read as. */
  lemma TokenizePadded(pre: string, s: string, post: string)
    requires forall j :: 0 <= j < |pre| ==> IsBlank(pre[j])
    requires forall j :: 0 <= j < |post| ==> IsBlank(post[j])
    ensures Segments(pre + s + post) == Segments(s)
    ensures Tokenize(pre + s + post) == Tokenize(s)
  {
    var t := pre + s + post;
    SegmentsSkipBlanks(t, |pre|);
    assert t[|pre|..] == s + post;
    SegmentsTrailingBlanks(s, post);
    if HasForbiddenSymbol(t) {
      var i :| 0 <= i < |t| && !Admissible(t[i]);
      if |pre| <= i < |pre| + |s| {
        assert t[i] == s[i - |pre|];
      }
    }
    if HasForbiddenSymbol(s) {
      var i :| 0 <= i < |s| && !Admissible(s[i]);
      assert t[|pre| + i] == s[i];
    }
  }

  /** A token `parseLine` can produce: a number, or one of the six operator
      characters. */
  predicate InAlphabet(t: Token)
  {
    t.Num? || t.c in OperatorSymbols
  }

  /** The failures the sign and `*` rewriting can raise. */
  predicate RewriteError(e: Error)
  {
    e == MultipleFloatingPoints || e == InvalidNumber || e == WrongTokenAfterNegativeSign
  }

  lemma PrependAlphabet(prefix: seq<Token>, r: Result<seq<Token>>)
    requires forall j :: 0 <= j < |prefix| ==> InAlphabet(prefix[j])
    requires r.Ok? ==> forall j :: 0 <= j < |r.value| ==> InAlphabet(r.value[j])
    ensures Prepend(prefix, r).Ok? ==> forall j :: 0 <= j < |Prepend(prefix, r).value| ==> InAlphabet(Prepend(prefix, r).value[j])
  {
    if r.Ok? {
      var p := prefix + r.value;
      assert forall j :: |prefix| <= j < |p| ==> p[j] == r.value[j - |prefix|];
    }
  }

  /** The rewriting yields only tokens of the alphabet, and fails only when a
      literal is malformed or a `-` sign is followed by something other than a
      number or `(`. */
  lemma {:induction false} RewriteShape(segs: seq<string>, prev: TokenType, first: bool)
    requires AllParseable(segs)
    ensures Rewrite(segs, prev, first).Err? ==> RewriteError(Rewrite(segs, prev, first).error)
    ensures Rewrite(segs, prev, first).Ok? ==>
      forall j :: 0 <= j < |Rewrite(segs, prev, first).value| ==> InAlphabet(Rewrite(segs, prev, first).value[j])
    decreases |segs|, 1
  {
    if segs != [] && ParseTokenSpec(segs[0]).Ok? {
      var lx := ParseTokenSpec(segs[0]).value;
      if (lx.kind == Add || lx.kind == Subtract) && (first || prev == LeftPar) {
        AfterSignShape(lx.kind == Subtract, segs[1..]);
      } else {
        RewriteShape(segs[1..], lx.kind, false);
        var star: seq<Token> :=
          if (lx.kind == LeftPar && (prev == Number || prev == RightPar)) || (lx.kind == Number && prev == RightPar)
          then [Op('*')] else [];
        PrependAlphabet(star + [lx.token], Rewrite(segs[1..], lx.kind, false));
      }
    }
  }

  lemma {:induction false} AfterSignShape(negative: bool, segs: seq<string>)
    requires AllParseable(segs)
    ensures AfterSign(negative, segs).Err? ==> RewriteError(AfterSign(negative, segs).error)
    ensures AfterSign(negative, segs).Ok? ==>
      forall j :: 0 <= j < |AfterSign(negative, segs).value| ==> InAlphabet(AfterSign(negative, segs).value[j])
    decreases |segs|, 0
  {
    if segs != [] && ParseTokenSpec(segs[0]).Ok? {
      var lx := ParseTokenSpec(segs[0]).value;
      RewriteShape(segs[1..], lx.kind, false);
      var tail := Rewrite(segs[1..], lx.kind, false);
      if !negative {
        PrependAlphabet([lx.token], tail);
      } else if lx.kind == LeftPar {
        PrependAlphabet([Num(-1.0), Op('*'), lx.token], tail);
      } else if lx.kind == Number {
        PrependAlphabet([Negated(lx.token)], tail);
      }
    }
  }

  /** `parseLine` fails with "forbidden symbols" exactly when the line holds a
      character that is neither a digit nor admissible. */
  lemma TokenizeForbidden(expr: string)
    ensures Tokenize(expr) == Err(ForbiddenSymbols) <==> HasForbiddenSymbol(expr)
  {
    if !HasForbiddenSymbol(expr) {
      SegmentsParseable(expr);
      RewriteShape(Segments(expr), NoType, true);
    }
  }

  /** What a successful `parseLine` returns: tokens of the alphabet, in an
      order the order check accepts; and the failures it can raise. */
  lemma TokenizeShape(expr: string)
    ensures Tokenize(expr).Ok? ==> !HasForbiddenSymbol(expr) && !WrongOrder(Tokenize(expr).value)
    ensures Tokenize(expr).Ok? ==> forall j :: 0 <= j < |Tokenize(expr).value| ==> InAlphabet(Tokenize(expr).value[j])
    ensures Tokenize(expr).Err? ==> Tokenize(expr).error in {ForbiddenSymbols, MultipleFloatingPoints, InvalidNumber, WrongTokenAfterNegativeSign, MisorderedTokens}
  {
    if !HasForbiddenSymbol(expr) {
      SegmentsParseable(expr);
      RewriteShape(Segments(expr), NoType, true);
    }
  }

  /** An empty or blank line yields no tokens. */
  lemma TokenizeBlank(expr: string)
    requires forall j :: 0 <= j < |expr| ==> IsBlank(expr[j])
    ensures Tokenize(expr) == Ok([])
  {
    SegmentsEmpty(expr);
    assert !HasForbiddenSymbol(expr) by {
      forall j | 0 <= j < |expr| ensures Admissible(expr[j]) {
        assert IsBlank(expr[j]);
      }
    }
  }

  lemma PrependAssoc(a: seq<Token>, b: seq<Token>, r: Result<seq<Token>>)
    ensures Prepend(a, Prepend(b, r)) == Prepend(a + b, r)
  {
    if r.Ok? {
      assert a + (b + r.value) == (a + b) + r.value;
    }
  }

  lemma PrependNil(r: Result<seq<Token>>)
    ensures Prepend([], r) == r
  {
    if r.Ok? {
      assert [] + r.value == r.value;
    }
  }

  /** What is still to be produced in the middle of `parseLine`'s loop, given
      the tokens so far, the sign flags, `prev_type` and the segments left. */
  ghost function Pending(tokens: seq<Token>, negative: bool, positive: bool, prev: TokenType, rest: seq<string>): Result<seq<Token>>
    requires AllParseable(rest)
    requires negative || positive ==> tokens != []
  {
    if negative || positive then Prepend(tokens[..|tokens| - 1], AfterSign(negative, rest))
    else Prepend(tokens, Rewrite(rest, prev, tokens == []))
  }

  ghost predicate SignPending(tokens: seq<Token>, negative: bool, positive: bool)
  {
    && !(negative && positive)
    && (negative || positive ==> tokens != [] && tokens[|tokens| - 1] == Op(if negative then '-' else '+'))
  }

  lemma PendingDone(tokens: seq<Token>, negative: bool, positive: bool, prev: TokenType)
    requires SignPending(tokens, negative, positive)
    ensures Pending(tokens, negative, positive, prev, []) == Ok(tokens)
  {
    if negative || positive {
      assert tokens[..|tokens| - 1] + [tokens[|tokens| - 1]] == tokens;
    } else {
      assert tokens + [] == tokens;
    }
  }

  lemma PendingParseError(tokens: seq<Token>, negative: bool, positive: bool, prev: TokenType, rest: seq<string>)
    requires AllParseable(rest) && rest != [] && ParseTokenSpec(rest[0]).Err?
    requires SignPending(tokens, negative, positive)
    ensures Pending(tokens, negative, positive, prev, rest) == Err(ParseTokenSpec(rest[0]).error)
  {}

  /** The loop body for the token after a `+` sign: the sign is dropped. */
  lemma PendingAfterPlus(tokens: seq<Token>, prev: TokenType, rest: seq<string>, lx: Lexeme)
    requires AllParseable(rest) && rest != [] && ParseTokenSpec(rest[0]) == Ok(lx)
    requires SignPending(tokens, false, true)
    ensures Pending(tokens, false, true, prev, rest) == Pending(tokens[..|tokens| - 1] + [lx.token], false, false, lx.kind, rest[1..])
  {
    PrependAssoc(tokens[..|tokens| - 1], [lx.token], Rewrite(rest[1..], lx.kind, false));
  }

  /** The loop body for the token after a `-` sign: `-1 *` before `(`, ... */
  lemma PendingMinusParen(tokens: seq<Token>, prev: TokenType, rest: seq<string>, lx: Lexeme)
    requires AllParseable(rest) && rest != [] && ParseTokenSpec(rest[0]) == Ok(lx)
    requires SignPending(tokens, true, false) && lx.kind == LeftPar
    ensures Pending(tokens, true, false, prev, rest) ==
      Pending(tokens[..|tokens| - 1] + [Num(-1.0), Op('*')] + [lx.token], false, false, lx.kind, rest[1..])
  {
    var t := tokens[..|tokens| - 1];
    PrependAssoc(t, [Num(-1.0), Op('*'), lx.token], Rewrite(rest[1..], lx.kind, false));
    assert t + [Num(-1.0), Op('*')] + [lx.token] == t + [Num(-1.0), Op('*'), lx.token];
  }

  /** ... the negated number before a number, ... */
  lemma PendingMinusNumber(tokens: seq<Token>, prev: TokenType, rest: seq<string>, lx: Lexeme)
    requires AllParseable(rest) && rest != [] && ParseTokenSpec(rest[0]) == Ok(lx)
    requires SignPending(tokens, true, false) && lx.kind == Number
    ensures Pending(tokens, true, false, prev, rest) ==
      Pending(tokens[..|tokens| - 1] + [Negated(lx.token)], false, false, lx.kind, rest[1..])
  {
    PrependAssoc(tokens[..|tokens| - 1], [Negated(lx.token)], Rewrite(rest[1..], lx.kind, false));
  }

  /** ... and a failure before anything else. */
  lemma PendingMinusOther(tokens: seq<Token>, prev: TokenType, rest: seq<string>, lx: Lexeme)
    requires AllParseable(rest) && rest != [] && ParseTokenSpec(rest[0]) == Ok(lx)
    requires SignPending(tokens, true, false) && lx.kind != LeftPar && lx.kind != Number
    ensures Pending(tokens, true, false, prev, rest) == Err(WrongTokenAfterNegativeSign)
  {}

  /** The loop body for a `+` or `-` that is a sign: it is pushed and flagged. */
  lemma PendingSign(tokens: seq<Token>, prev: TokenType, rest: seq<string>, lx: Lexeme)
    requires AllParseable(rest) && rest != [] && ParseTokenSpec(rest[0]) == Ok(lx)
    requires (lx.kind == Add || lx.kind == Subtract) && (tokens == [] || prev == LeftPar)
    ensures SignPending(tokens + [lx.token], lx.kind == Subtract, lx.kind == Add)
    ensures Pending(tokens, false, false, prev, rest) == Pending(tokens + [lx.token], lx.kind == Subtract, lx.kind == Add, lx.kind, rest[1..])
  {
    assert (tokens + [lx.token])[..|tokens|] == tokens;
  }

  /** The loop body for every other token: an implicit `*`, if any, then the token. */
  lemma PendingPlain(tokens: seq<Token>, prev: TokenType, rest: seq<string>, lx: Lexeme, star: seq<Token>)
    requires AllParseable(rest) && rest != [] && ParseTokenSpec(rest[0]) == Ok(lx)
    requires !((lx.kind == Add || lx.kind == Subtract) && (tokens == [] || prev == LeftPar))
    requires star == if (lx.kind == LeftPar && (prev == Number || prev == RightPar)) || (lx.kind == Number && prev == RightPar)
                     then [Op('*')] else []
    ensures Pending(tokens, false, false, prev, rest) == Pending(tokens + star + [lx.token], false, false, lx.kind, rest[1..])
  {
    PrependAssoc(tokens, star + [lx.token], Rewrite(rest[1..], lx.kind, false));
    assert tokens + (star + [lx.token]) == tokens + star + [lx.token];
  }

  /** One pass of `parseLine`'s loop over the segments: `segment`, the first
      of the segments `rest` still to be read, is parsed and the tokens, the sign flags and `prev_type` are updated, or
      the failure that ends the loop is reported. */
  method ConsumeSegment(segment: string, tokens: seq<Token>, negativeSign: bool, positiveSign: bool, prevType: TokenType, ghost rest: seq<string>)
    returns (failure: Option<Error>, tokens': seq<Token>, negativeSign': bool, positiveSign': bool, prevType': TokenType)
    requires AllParseable(rest) && rest != [] && rest[0] == segment
    requires SignPending(tokens, negativeSign, positiveSign)
    ensures failure.Some? ==> Pending(tokens, negativeSign, positiveSign, prevType, rest) == Err(failure.value)
    ensures failure.None? ==> SignPending(tokens', negativeSign', positiveSign')
    ensures failure.None? ==>
      Pending(tokens, negativeSign, positiveSign, prevType, rest) == Pending(tokens', negativeSign', positiveSign', prevType', rest[1..])
  {
    tokens', negativeSign', positiveSign', prevType' := tokens, negativeSign, positiveSign, prevType;
    var lexeme := ParseToken(segment);
    if lexeme.Err? {
      PendingParseError(tokens, negativeSign, positiveSign, prevType, rest);
      return Some(lexeme.error), tokens', negativeSign', positiveSign', prevType';
    }
    var token, kind := lexeme.value.token, lexeme.value.kind;
    if negativeSign || positiveSign {
      positiveSign' := false;
      tokens' := tokens'[..|tokens'| - 1];
      if negativeSign {
        negativeSign' := false;
        if kind == LeftPar {
          PendingMinusParen(tokens, prevType, rest, lexeme.value);
          tokens' := tokens' + [Num(-1.0), Op('*')];
        } else if kind == Number {
          PendingMinusNumber(tokens, prevType, rest, lexeme.value);
          token := Negated(token);
        } else {
          PendingMinusOther(tokens, prevType, rest, lexeme.value);
          return Some(WrongTokenAfterNegativeSign), tokens', negativeSign', positiveSign', prevType';
        }
      } else {
        PendingAfterPlus(tokens, prevType, rest, lexeme.value);
      }
    } else if (kind == Subtract || kind == Add) && (|tokens| == 0 || prevType == LeftPar) {
      if kind == Subtract {
        negativeSign' := true;
      } else {
        positiveSign' := true;
      }
      PendingSign(tokens, prevType, rest, lexeme.value);
    } else {
      ghost var star: seq<Token> := [];
      if kind == LeftPar {
        if prevType == Number || prevType == RightPar {
          tokens' := tokens' + [Op('*')];
          star := [Op('*')];
        }
      } else if kind == Number && prevType == RightPar {
        tokens' := tokens' + [Op('*')];
        star := [Op('*')];
      }
      PendingPlain(tokens, prevType, rest, lexeme.value, star);
      assert tokens' == tokens + star;
    }
    tokens' := tokens' + [token];
    prevType' := kind;
    failure := None;
  }

  /** `parseLine`: the forbidden-symbol check, the split into segments, the
      loop over the segments and the final order check. */
  method ParseLine(expr: string) returns (r: Result<seq<Token>>)
    ensures r == Tokenize(expr)
  {
    var forbidden := ForbiddenSymbolFound(expr);
    if forbidden {
      return Err(ForbiddenSymbols);
    }
    var splittedLine := SplitLine(expr);
    SegmentsParseable(expr);
    var tokens: seq<Token> := [];
    var negativeSign, positiveSign := false, false;
    var prevType := NoType;
    assert splittedLine[0..] == splittedLine;
    PrependNil(Rewrite(splittedLine, NoType, true));
    for i := 0 to |splittedLine|
      invariant SignPending(tokens, negativeSign, positiveSign)
      invariant Rewrite(splittedLine, NoType, true) == Pending(tokens, negativeSign, positiveSign, prevType, splittedLine[i..])
    {
      assert splittedLine[i..][1..] == splittedLine[i + 1..];
      var failure;
      failure, tokens, negativeSign, positiveSign, prevType :=
        ConsumeSegment(splittedLine[i], tokens, negativeSign, positiveSign, prevType, splittedLine[i..]);
      if failure.Some? {
        return Err(failure.value);
      }
    }
    PendingDone(tokens, negativeSign, positiveSign, prevType);
    assert splittedLine[|splittedLine|..] == [];
    var wrong := WrongTokenOrder(tokens);
    if wrong {
      return Err(MisorderedTokens);
    }
    return Ok(tokens);
  }

  // ---------------------------------------------------------------------------
  // wrongTokenOrder

  /** No binary operator of `np` comes first or directly follows another
      binary operator: each one has a token that is not a binary operator
      right before it. */
  predicate OperatorsFollowOperands(np: seq<Token>)
  {
    && (np != [] ==> !IsBinaryOperator(np[0]))
    && forall j, k :: 0 <= j < |np| && 0 <= k < |np| && k == j + 1 ==> !(IsBinaryOperator(np[j]) && IsBinaryOperator(np[k]))
  }

  /** Parentheses ignored, the order is wrong when a binary operator has no
      number before it or follows another binary operator, or when a
      non-empty list does not end with a number (it ends with an operator or
      holds no number and no operator at all). */
  predicate WrongOrder(ts: seq<Token>)
  {
    var np := NonParens(ts);
    || !OperatorsFollowOperands(np)
    || (|ts| > 0 && (np == [] || !np[|np| - 1].Num?))
  }

  lemma OperatorsFollowOperandsStep(np: seq<Token>, t: Token)
    ensures OperatorsFollowOperands(np + [t]) <==>
      OperatorsFollowOperands(np) && (IsBinaryOperator(t) ==> np != [] && !IsBinaryOperator(np[|np| - 1]))
  {
    var q := np + [t];
    assert forall j :: 0 <= j < |np| ==> q[j] == np[j];
    assert q[|np|] == t;
    if OperatorsFollowOperands(q) {
      forall j, k | 0 <= j < k < |np| && k == j + 1
        ensures !(IsBinaryOperator(np[j]) && IsBinaryOperator(np[k]))
      {
        assert q[j] == np[j] && q[k] == np[k];
      }
      if IsBinaryOperator(t) && np != [] {
        assert q[|np| - 1] == np[|np| - 1];
      }
    }
  }

  lemma OperatorsFollowOperandsPrefix(a: seq<Token>, b: seq<Token>)
    requires OperatorsFollowOperands(a + b)
    ensures OperatorsFollowOperands(a)
  {
    var q := a + b;
    assert a != [] ==> q[0] == a[0];
    forall j, k | 0 <= j < k < |a| && k == j + 1
      ensures !(IsBinaryOperator(a[j]) && IsBinaryOperator(a[k]))
    {
      assert q[j] == a[j] && q[k] == a[k];
    }
  }

  /** A misplaced operator in a prefix makes the whole list misordered. */
  lemma MisorderedPrefix(ts: seq<Token>, k: nat)
    requires k <= |ts| && !OperatorsFollowOperands(NonParens(ts[..k]))
    ensures WrongOrder(ts)
  {
    assert ts == ts[..k] + ts[k..];
    NonParensAppend(ts[..k], ts[k..]);
    if OperatorsFollowOperands(NonParens(ts)) {
      OperatorsFollowOperandsPrefix(NonParens(ts[..k]), NonParens(ts[k..]));
    }
  }

  lemma NonParensStep(ts: seq<Token>, i: nat)
    requires i < |ts|
    ensures NonParens(ts[..i + 1]) == NonParens(ts[..i]) + if ts[i].Num? || IsBinaryOperator(ts[i]) then [ts[i]] else []
  {
    assert ts[..i + 1] == ts[..i] + [ts[i]];
    NonParensAppend(ts[..i], [ts[i]]);
    NonParensSingle(ts[i]);
  }

  /** Once the scan has passed every token without finding a misplaced
      operator, the order is wrong exactly when the tokens do not end with a
      number. */
  lemma OrderVerdict(ts: seq<Token>, np: seq<Token>)
    requires np == NonParens(ts) && OperatorsFollowOperands(np)
    ensures WrongOrder(ts) <==> (|ts| > 0 && !(np != [] && np[|np| - 1].Num?)) || (np != [] && IsBinaryOperator(np[|np| - 1]))
  {}

  method WrongTokenOrder(tokens: seq<Token>) returns (wrong: bool)
    ensures wrong == WrongOrder(tokens)
  {
    var numberEncountered, isNumber, isOp := false, false, false;
    ghost var np: seq<Token> := [];
    for i := 0 to |tokens|
      invariant np == NonParens(tokens[..i])
      invariant OperatorsFollowOperands(np)
      invariant numberEncountered <==> np != []
      invariant isNumber <==> np != [] && np[|np| - 1].Num?
      invariant isOp <==> np != [] && IsBinaryOperator(np[|np| - 1])
    {
      var token := tokens[i];
      NonParensStep(tokens, i);
      OperatorsFollowOperandsStep(np, token);
      if token.Num? {
        isOp := false;
        isNumber := true;
        numberEncountered := true;
        np := np + [token];
      } else if token.Op? && token.c != '(' && token.c != ')' {
        if !numberEncountered || isOp {
          assert !OperatorsFollowOperands(NonParens(tokens[..i + 1]));
          MisorderedPrefix(tokens, i + 1);
          return true;
        }
        isOp := true;
        isNumber := false;
        np := np + [token];
      }
    }
    assert tokens[..|tokens|] == tokens;
    OrderVerdict(tokens, np);
    if !isNumber && |tokens| > 0 {
      return true;
    }
    if isOp {
      return true;
    }
    return false;
  }
}
