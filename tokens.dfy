/** The token model (tokens.h) and the result formatter (tokens.cpp): a token is
    either an operator character or a numeric value; a numeric result is rounded
    half away from zero to hundredths and rendered either as a bare integer or
    with exactly two decimals. */
module Tokens {
  import opened Outcomes

  /** `std::variant<Operator, Double>`: exactly one alternative, each with one
      payload and no other state. */
  datatype Token = Op(c: char) | Num(v: real)

  /** `Is<Operator>()` */
  predicate IsOperator(t: Token) { t.Op? }

  /** `Is<Double>()` */
  predicate IsDouble(t: Token) { t.Num? }

  /** A token holds exactly one alternative. */
  lemma ExactlyOneAlternative(t: Token)
    ensures IsOperator(t) != IsDouble(t)
  {}

  /** `tryAs<Operator>()`: the payload exactly when the token is an operator. */
  function TryAsOperator(t: Token): (r: Option<char>)
    ensures r.Some? <==> IsOperator(t)
    ensures r.Some? ==> t == Op(r.value)
  {
    match t
    case Op(c) => Some(c)
    case Num(_) => None
  }

  /** `tryAs<Double>()`: the payload exactly when the token is a number. */
  function TryAsDouble(t: Token): (r: Option<real>)
    ensures r.Some? <==> IsDouble(t)
    ensures r.Some? ==> t == Num(r.value)
  {
    match t
    case Num(v) => Some(v)
    case Op(_) => None
  }

  /** `As<Operator>()`: `std::get`, which fails on the other alternative. */
  function AsOperator(t: Token): (r: Result<char>)
    ensures r.Ok? <==> IsOperator(t)
    ensures r.Ok? ==> t == Op(r.value)
    ensures r.Err? ==> r.error == BadVariantAccess
  {
    match t
    case Op(c) => Ok(c)
    case Num(_) => Err(BadVariantAccess)
  }

  /** `As<Double>()`: `std::get`, which fails on the other alternative. */
  function AsDouble(t: Token): (r: Result<real>)
    ensures r.Ok? <==> IsDouble(t)
    ensures r.Ok? ==> t == Num(r.value)
    ensures r.Err? ==> r.error == BadVariantAccess
  {
    match t
    case Num(v) => Ok(v)
    case Op(_) => Err(BadVariantAccess)
  }

  /** `Operator::setOperator`: overwrite the char of an operator. */
  function SetOperator(t: Token, op: char): (r: Token)
    requires t.Op?
    ensures r.Op?
  {
    t.(c := op)
  }

  /** `Double::setDouble`: overwrite the value of a number. */
  function SetDouble(t: Token, value: real): (r: Token)
    requires t.Num?
    ensures r.Num?
  {
    t.(v := value)
  }

  /** The getters return what the setters stored last, and storing the current
      payload changes nothing. */
  lemma SetterLaws(t: Token, x: real, y: real, a: char, b: char)
    ensures t.Num? ==> SetDouble(t, x).v == x
    ensures t.Num? ==> SetDouble(SetDouble(t, x), y) == SetDouble(t, y)
    ensures t.Num? ==> SetDouble(t, t.v) == t
    ensures t.Op? ==> SetOperator(t, a).c == a
    ensures t.Op? ==> SetOperator(SetOperator(t, a), b) == SetOperator(t, b)
    ensures t.Op? ==> SetOperator(t, t.c) == t
  {}

  /** An operator other than a parenthesis. */
  predicate IsBinaryOperator(t: Token)
  {
    t.Op? && t.c != '(' && t.c != ')'
  }

  /** The tokens with the parentheses left out. */
  function NonParens(ts: seq<Token>): (r: seq<Token>)
    ensures forall j :: 0 <= j < |r| ==> r[j].Num? || IsBinaryOperator(r[j])
    ensures |r| <= |ts|
  {
    if ts == [] then []
    else
      var last := ts[|ts| - 1];
      NonParens(ts[..|ts| - 1]) + (if last.Num? || IsBinaryOperator(last) then [last] else [])
  }

  lemma NonParensSingle(t: Token)
    ensures NonParens([t]) == if t.Num? || IsBinaryOperator(t) then [t] else []
  {
    assert [t][..0] == [];
  }

  lemma {:induction false} NonParensAppend(a: seq<Token>, b: seq<Token>)
    ensures NonParens(a + b) == NonParens(a) + NonParens(b)
    decreases |b|
  {
    if b == [] {
      assert a + b == a;
    } else {
      assert (a + b)[..|a + b| - 1] == a + b[..|b| - 1];
      NonParensAppend(a, b[..|b| - 1]);
    }
  }

  // ---------------------------------------------------------------------------
  // Rounding

  /** `static_cast<int>` of a double: truncation toward zero.  The 32-bit range
      of `int` is not modelled. */
  function Trunc(y: real): (n: int)
    ensures y >= 0.0 ==> n as real <= y < n as real + 1.0
    ensures y < 0.0 ==> n as real - 1.0 < y <= n as real
  {
    if y >= 0.0 then y.Floor else -((-y).Floor)
  }

  /** The rounded value counted in hundredths: `Round(x) == Cents(x) / 100`. */
  function Cents(x: real): int
  {
    if x >= 0.0 then Trunc(x * 100.0 + 0.5) else Trunc(x * 100.0 - 0.5)
  }

  /** `Round`: scale by 100, add or subtract one half by sign, truncate, scale back. */
  function Round(x: real): real
  {
    Cents(x) as real / 100.0
  }

  /** `Cents(x)` is the integer nearest to `100 x`, a tie going away from zero. */
  lemma CentsNearestHalfAway(x: real)
    ensures x >= 0.0 ==> 100.0 * x - 0.5 < Cents(x) as real <= 100.0 * x + 0.5
    ensures x < 0.0 ==> 100.0 * x - 0.5 <= Cents(x) as real < 100.0 * x + 0.5
  {}

  /** The rounded value is a whole number of hundredths within half a hundredth
      of the input. */
  lemma RoundBounds(x: real)
    ensures Round(x) * 100.0 == Cents(x) as real
    ensures -0.005 <= Round(x) - x <= 0.005
  {
    CentsNearestHalfAway(x);
  }

  /** Rounding is symmetric about zero. */
  lemma RoundSymmetric(x: real)
    ensures Cents(-x) == -Cents(x)
    ensures Round(-x) == -Round(x)
  {
    if x > 0.0 {
      assert Cents(-x) == Trunc(-x * 100.0 - 0.5) == -((x * 100.0 + 0.5).Floor);
    } else if x < 0.0 {
      assert Cents(x) == Trunc(x * 100.0 - 0.5) == -((-x * 100.0 + 0.5).Floor);
    }
  }

  /** A value that is already a whole number of hundredths is left alone, so
      rounding twice is rounding once. */
  lemma RoundWholeCents(k: int)
    ensures Cents(k as real / 100.0) == k
  {
    var x := k as real / 100.0;
    assert x * 100.0 == k as real;
    if k >= 0 {
      assert (k as real + 0.5).Floor == k;
    } else {
      assert (-(k as real) + 0.5).Floor == -k;
    }
  }

  lemma RoundIdempotent(x: real)
    ensures Round(Round(x)) == Round(x)
  {
    RoundWholeCents(Cents(x));
  }

  // ---------------------------------------------------------------------------
  // Rendering

  /** `operator_desc`: the display name of each operator char. */
  const OperatorDesc: map<char, string> :=
    map['+' := "Addition", '-' := "Subtraction", '*' := "Multiplication",
        '/' := "Division", '(' := "LeftParenthesis", ')' := "RightParenthesis"]

  predicate IsDigit(c: char) { '0' <= c <= '9' }

  predicate AllDigits(s: string) { forall i :: 0 <= i < |s| ==> IsDigit(s[i]) }

  function DigitChar(d: nat): (c: char)
    requires d < 10
    ensures IsDigit(c)
  {
    ('0' as int + d) as char
  }

  /** Decimal text of a natural number, most significant digit first. */
  function NatToString(n: nat): (s: string)
    ensures |s| >= 1 && AllDigits(s)
    decreases n
  {
    if n < 10 then [DigitChar(n)] else NatToString(n / 10) + [DigitChar(n % 10)]
  }

  /** Stream output of an `int`. */
  function IntToString(n: int): string
  {
    if n < 0 then "-" + NatToString(-n) else NatToString(n)
  }

  /** `isInteger`: the value has no fractional part (compared exactly; the
      single-precision `ceilf` is not modelled). */
  predicate IsInteger(x: real)
  {
    x.Floor as real == x
  }

  /** Fixed-point output with two decimals of the value `k / 100`. */
  function TwoDecimals(k: int): string
  {
    var m := if k < 0 then -k else k;
    (if k < 0 then "-" else "") + NatToString(m / 100) + "." + [DigitChar(m % 100 / 10), DigitChar(m % 10)]
  }

  /** The number branch of `operator<<`: round, then print an integer if the
      rounded value is integral and two decimals otherwise. */
  function RenderNumber(x: real): string
  {
    var r := Round(x);
    if IsInteger(r) then IntToString(r.Floor) else TwoDecimals(Cents(x))
  }

  /** `operator<<` on a token: an operator prints its name (`operator_desc.at`,
      which fails on a char missing from the table), a number its rounded text. */
  function Render(t: Token): (r: Result<string>)
    ensures t.Num? ==> r == Ok(RenderNumber(t.v))
    ensures t.Op? ==> (r.Ok? <==> t.c in OperatorDesc)
    ensures t.Op? && r.Err? ==> r.error == UnknownOperator
  {
    match t
    case Op(c) => if c in OperatorDesc then Ok(OperatorDesc[c]) else Err(UnknownOperator)
    case Num(v) => Ok(RenderNumber(v))
  }

  /** An operator renders as one of six fixed names, chosen by its char. */
  lemma OperatorNames(c: char)
    ensures Render(Op(c)).Ok? <==> c in {'+', '-', '*', '/', '(', ')'}
    ensures Render(Op('+')) == Ok("Addition") && Render(Op('-')) == Ok("Subtraction")
    ensures Render(Op('*')) == Ok("Multiplication") && Render(Op('/')) == Ok("Division")
    ensures Render(Op('(')) == Ok("LeftParenthesis") && Render(Op(')')) == Ok("RightParenthesis")
  {}

  /** The rounded value is integral exactly when its hundredths are a multiple of 100. */
  lemma IntegralIffWholeHundreds(x: real)
    ensures IsInteger(Round(x)) <==> Cents(x) % 100 == 0
    ensures IsInteger(Round(x)) ==> Round(x).Floor == Cents(x) / 100
  {
    var k := Cents(x);
    var q, m := k / 100, k % 100;
    assert k == 100 * q + m;
    assert Round(x) == q as real + m as real / 100.0;
    if m == 0 {
      assert Round(x) == q as real;
    } else {
      assert q as real < Round(x) < q as real + 1.0;
      assert Round(x).Floor == q;
    }
  }

  /** The render decision: a rounded integral value prints as a bare integer
      with no decimal point; any other value prints with a point followed by
      exactly two digits. */
  lemma RenderDecision(x: real)
    ensures Cents(x) % 100 == 0 ==> RenderNumber(x) == IntToString(Cents(x) / 100)
    ensures Cents(x) % 100 == 0 ==> '.' !in RenderNumber(x)
    ensures Cents(x) % 100 != 0 ==>
      var s := RenderNumber(x);
      |s| >= 4 && s[|s| - 3] == '.' && IsDigit(s[|s| - 2]) && IsDigit(s[|s| - 1])
  {
    IntegralIffWholeHundreds(x);
    var k := Cents(x);
    if k % 100 == 0 {
      var s := IntToString(k / 100);
      assert forall i :: 0 <= i < |s| ==> s[i] == '-' || IsDigit(s[i]);
    }
  }
}
