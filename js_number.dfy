/**
 * JavaScript numbers as far as the analysis code observes them, and
 * `parseFloat`, which reads the longest decimal-literal prefix of a string
 * after leading white space and yields NaN when there is none.
 */
module JsNumber {
  import opened Strings

  /** A JavaScript number: NaN, a finite value (an exact real here) or a signed infinity. */
  datatype JsNum = NaN | Finite(value: real) | Infinity(negative: bool)

  predicate StartsWith(s: string, prefix: string) {
    |prefix| <= |s| && s[..|prefix|] == prefix
  }

  /** The text after an optional leading `+` or `-`. */
  function AfterSign(t: string): (u: string)
    ensures |u| <= |t| && u == t[|t| - |u|..]
  {
    if |t| > 0 && (t[0] == '+' || t[0] == '-') then t[1..] else t
  }

  /** The longest prefix of `s` made of decimal digits. */
  function LeadingDigits(s: string): (r: string)
    ensures |r| <= |s| && r == s[..|r|]
    ensures forall i :: 0 <= i < |r| ==> IsDigit(r[i])
    ensures |r| < |s| ==> !IsDigit(s[|r|])
  {
    if |s| > 0 && IsDigit(s[0]) then [s[0]] + LeadingDigits(s[1..]) else []
  }

  /** The value of a string of decimal digits. */
  function DigitsValue(d: string): nat
    requires forall i :: 0 <= i < |d| ==> IsDigit(d[i])
  {
    if d == [] then 0
    else
      assert IsDigit(d[|d| - 1]);
      DigitsValue(d[..|d| - 1]) * 10 + (d[|d| - 1] as int - '0' as int)
  }

  function Pow10(e: nat): (r: nat)
    ensures r >= 1
  {
    if e == 0 then 1 else 10 * Pow10(e - 1)
  }

  /** The exponent of an exponent part `e[+-]digits` at the start of `s`, or 0 when there is none. */
  function Exponent(s: string): int
  {
    if |s| > 0 && (s[0] == 'e' || s[0] == 'E') then
      var digits := LeadingDigits(AfterSign(s[1..]));
      var magnitude: int := DigitsValue(digits);
      if |s| > 1 && s[1] == '-' then -magnitude else magnitude
    else 0
  }

  function Scale(m: real, e: int): real
  {
    if e >= 0 then m * Pow10(e) as real else m / Pow10(-e) as real
  }

  /** Whether `parseFloat(s)` finds a number: after optional white space and an
      optional sign, a digit, a point followed by a digit, or `Infinity`. */
  predicate HasNumericPrefix(s: string) {
    var u := AfterSign(TrimStart(s));
    (|u| > 0 && IsDigit(u[0])) || (|u| > 1 && u[0] == '.' && IsDigit(u[1])) || StartsWith(u, "Infinity")
  }

  /** `parseFloat(s)`: a number exactly when the text has a numeric prefix. */
  function ParseFloat(s: string): (r: JsNum)
    ensures r != NaN <==> HasNumericPrefix(s)
  {
    var t := TrimStart(s);
    var negative := |t| > 0 && t[0] == '-';
    var u := AfterSign(t);
    if StartsWith(u, "Infinity") then Infinity(negative)
    else
      var intDigits := LeadingDigits(u);
      var rest := u[|intDigits|..];
      assert intDigits == [] ==> rest == u;
      var hasPoint := |rest| > 0 && rest[0] == '.';
      var fracDigits := if hasPoint then LeadingDigits(rest[1..]) else [];
      if intDigits == [] && fracDigits == [] then NaN
      else
        var afterMantissa := if hasPoint then rest[1 + |fracDigits|..] else rest;
        var mantissa := DigitsValue(intDigits) as real + DigitsValue(fracDigits) as real / Pow10(|fracDigits|) as real;
        var magnitude := Scale(mantissa, Exponent(afterMantissa));
        Finite(if negative then -magnitude else magnitude)
  }

  /** A string that starts with a digit has a numeric prefix. */
  lemma DigitStartIsNumeric(s: string)
    requires |s| > 0 && IsDigit(s[0])
    ensures HasNumericPrefix(s)
  {
    assert !IsWhitespace(s[0]);
  }

  /** `n > k` on JavaScript numbers; every comparison with NaN is false. */
  predicate GreaterThan(x: JsNum, k: real) {
    match x
    case NaN => false
    case Finite(v) => v > k
    case Infinity(negative) => !negative
  }

  /** `n < k` on JavaScript numbers. */
  predicate LessThan(x: JsNum, k: real) {
    match x
    case NaN => false
    case Finite(v) => v < k
    case Infinity(negative) => negative
  }

  /** `x + y`: NaN absorbs, and infinities of opposite signs give NaN. */
  function Plus(x: JsNum, y: JsNum): JsNum {
    match (x, y)
    case (NaN, _) => NaN
    case (_, NaN) => NaN
    case (Finite(a), Finite(b)) => Finite(a + b)
    case (Infinity(n), Finite(_)) => Infinity(n)
    case (Finite(_), Infinity(n)) => Infinity(n)
    case (Infinity(n), Infinity(m)) => if n == m then Infinity(n) else NaN
  }

  /** `x / d` for a finite divisor: 0 / 0 is NaN and any other number over 0 is an
      infinity of its sign. */
  function DivideBy(x: JsNum, d: real): JsNum {
    match x
    case NaN => NaN
    case Finite(a) =>
      if d != 0.0 then Finite(a / d)
      else if a == 0.0 then NaN
      else Infinity(a < 0.0)
    case Infinity(n) => Infinity(if d < 0.0 then !n else n)
  }

  /** `x * 100`. */
  function Percent(x: JsNum): JsNum {
    match x
    case Finite(a) => Finite(a * 100.0)
    case _ => x
  }

  lemma {:induction false} DigitsValueOfNatToString(n: nat)
    ensures DigitsValue(NatToString(n)) == n
  {
    if n >= 10 {
      DigitsValueOfNatToString(n / 10);
      var d := NatToString(n);
      assert d[..|d| - 1] == NatToString(n / 10);
    }
  }

  lemma {:induction false} LeadingDigitsOfDigits(d: string)
    requires forall i :: 0 <= i < |d| ==> IsDigit(d[i])
    ensures LeadingDigits(d) == d
  {
    if d != [] {
      LeadingDigitsOfDigits(d[1..]);
    }
  }

  /** Reading back the decimal rendering of a count gives the count. */
  lemma ParseFloatOfNatToString(n: nat)
    ensures ParseFloat(NatToString(n)) == Finite(n as real)
  {
    var d := NatToString(n);
    assert !IsWhitespace(d[0]);
    assert TrimStart(d) == d;
    assert AfterSign(d) == d;
    assert d[0] != "Infinity"[0];
    assert !StartsWith(d, "Infinity");
    LeadingDigitsOfDigits(d);
    var rest := d[|d|..];
    assert rest == [];
    assert Exponent(rest) == 0;
    DigitsValueOfNatToString(n);
    assert Scale(n as real + 0.0 / 1.0, 0) == n as real;
  }

  /** The finite numbers among `parseFloat` of the cells; cells that parse to NaN are dropped. */
  function FiniteValues(cells: seq<string>): (r: seq<real>)
    ensures |r| <= |cells|
  {
    if cells == [] then []
    else
      var init := FiniteValues(cells[..|cells| - 1]);
      match ParseFloat(cells[|cells| - 1])
      case Finite(v) => init + [v]
      case _ => init
  }
}
