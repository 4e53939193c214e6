/**
 Exact decimals: the normal form of a decimal string that numeric repairs are checked
 with.  Two strings have the same normal form exactly when they denote the same
 rational number, however many digits they have and however large their exponents.
 */
module Decimals {
  import opened Common
  import Pointers

  // ----- Reading a decimal -----

  predicate IsDigit(c: char) {
    '0' <= c <= '9'
  }

  predicate AllDigits(s: string) {
    forall i :: 0 <= i < |s| ==> IsDigit(s[i])
  }

  // How many characters from the start are digits.
  function DigitRun(s: string): (n: nat)
    ensures n <= |s| && AllDigits(s[..n]) && (n < |s| ==> !IsDigit(s[n]))
  {
    if s != "" && IsDigit(s[0]) then
      assert forall i :: 0 <= i < DigitRun(s[1..]) ==> s[1..][i] == s[i + 1];
      1 + DigitRun(s[1..])
    else 0
  }

  function DigitValue(c: char): (d: nat)
    requires IsDigit(c)
    ensures d < 10
  {
    c as int - '0' as int
  }

  function NumberOf(s: string): nat
    requires AllDigits(s)
  {
    if s == "" then 0 else 10 * NumberOf(s[..|s| - 1]) + DigitValue(s[|s| - 1])
  }

  datatype Parts = Parts(negative: bool, whole: string, fraction: string, exponent: int)

  // An optional sign and digits, to the end of the text.
  function ExponentOf(s: string): Option<int> {
    var signed := s != "" && (s[0] == '+' || s[0] == '-');
    var digits := if signed then s[1..] else s;
    if digits != "" && DigitRun(digits) == |digits| then
      assert digits[..|digits|] == digits;
      var n: int := NumberOf(digits);
      Some(if signed && s[0] == '-' then -n else n)
    else None
  }

  // The text after the digits of the whole part: a fraction, if there is one, and the rest.
  function FractionOf(s: string): (r: Option<(string, string)>)
    ensures r.Some? ==> AllDigits(r.value.0)
  {
    if s == "" || s[0] != '.' then Some(("", s))
    else
      var n := DigitRun(s[1..]);
      if n == 0 then None else Some((s[1..][..n], s[1..][n..]))
  }

  function Match(value: string): (r: Option<Parts>)
    ensures r.Some? ==> r.value.whole != "" && AllDigits(r.value.whole) && AllDigits(r.value.fraction)
  {
    var negative := value != "" && value[0] == '-';
    var s := if negative then value[1..] else value;
    var n := DigitRun(s);
    var fraction := FractionOf(s[n..]);
    if n == 0 || fraction.None? then None
    else
      var rest := fraction.value.1;
      if rest == "" then Some(Parts(negative, s[..n], fraction.value.0, 0))
      else if (rest[0] == 'e' || rest[0] == 'E') && ExponentOf(rest[1..]).Some? then
        Some(Parts(negative, s[..n], fraction.value.0, ExponentOf(rest[1..]).value))
      else None
  }

  // ----- The rational number -----

  // Ten to an integer power.
  function Power(e: int): (r: real)
    ensures r > 0.0
    decreases if e < 0 then -e else e
  {
    if e == 0 then 1.0 else if e > 0 then 10.0 * Power(e - 1) else Power(e + 1) / 10.0
  }

  function Mantissa(p: Parts): nat
    requires AllDigits(p.whole) && AllDigits(p.fraction)
  {
    NumberOf(p.whole + p.fraction)
  }

  function Denotes(p: Parts): real
    requires AllDigits(p.whole) && AllDigits(p.fraction)
  {
    (if p.negative then -1.0 else 1.0) * (Mantissa(p) as real * Power(p.exponent - |p.fraction|))
  }

  // ----- The normal form -----

  function WithoutLeadingZeros(s: string): (r: string)
    ensures AllDigits(s) ==> AllDigits(r)
    ensures r != "" ==> r[0] != '0'
  {
    if s != "" && s[0] == '0' then WithoutLeadingZeros(s[1..]) else s
  }

  function TrailingZeros(s: string): (n: nat)
    ensures n <= |s|
    ensures n < |s| ==> s[|s| - n - 1] != '0'
  {
    if s != "" && s[|s| - 1] == '0' then 1 + TrailingZeros(s[..|s| - 1]) else 0
  }

  function IntegerText(n: int): string {
    if n < 0 then "-" + Pointers.Decimal(-n) else Pointers.Decimal(n)
  }

  function NormalForm(p: Parts): string
    requires AllDigits(p.whole) && AllDigits(p.fraction)
  {
    var digits := WithoutLeadingZeros(p.whole + p.fraction);
    if digits == "" then "0e0"
    else
      var zeros := TrailingZeros(digits);
      (if p.negative then "-" else "") + digits[..|digits| - zeros] + "e" + IntegerText(p.exponent - |p.fraction| + zeros)
  }

  function Canonical(value: string): Option<string> {
    var parts := Match(value);
    if parts.None? then None else Some(NormalForm(parts.value))
  }

  lemma TrailingStep(s: string, n: nat)
    requires n < TrailingZeros(s)
    ensures |s| > n && s[|s| - n - 1] == '0'
    decreases n
  {
    if n > 0 { TrailingStep(s[..|s| - 1], n - 1); }
  }

  lemma TrailingDone(s: string, n: nat)
    requires n <= TrailingZeros(s) && (n == |s| || s[|s| - n - 1] != '0')
    ensures n == TrailingZeros(s)
  {
    if n < TrailingZeros(s) { TrailingStep(s, n); }
  }

  // The normal form as it is computed, dropping one zero at a time.
  method DecimalCanonical(value: string) returns (r: Option<string>)
    ensures r == Canonical(value)
  {
    var parts := Match(value);
    if parts.None? { return None; }
    var p := parts.value;
    ghost var all := WithoutLeadingZeros(p.whole + p.fraction);
    var digits := WithoutLeadingZeros(p.whole + p.fraction);
    if digits == "" { return Some("0e0"); }
    var exponent := p.exponent - |p.fraction|;
    ghost var zeros := 0;
    while digits != "" && digits[|digits| - 1] == '0'
      invariant zeros <= TrailingZeros(all) && digits == all[..|all| - zeros] && exponent == p.exponent - |p.fraction| + zeros
      decreases |digits|
    {
      assert digits[|digits| - 1] == all[|all| - zeros - 1];
      digits := digits[..|digits| - 1];
      exponent := exponent + 1;
      zeros := zeros + 1;
    }
    TrailingDone(all, zeros);
    return Some((if p.negative then "-" else "") + digits + "e" + IntegerText(exponent));
  }

  // ----- Digits and numbers -----

  lemma {:induction false} LeadingZerosSame(s: string)
    requires AllDigits(s)
    ensures NumberOf(WithoutLeadingZeros(s)) == NumberOf(s)
  {
    if s != "" && s[0] == '0' {
      ZeroInFront(s[1..]);
      assert s == "0" + s[1..];
      LeadingZerosSame(s[1..]);
    }
  }

  lemma {:induction false} ZeroInFront(s: string)
    requires AllDigits(s)
    ensures AllDigits("0" + s) && NumberOf("0" + s) == NumberOf(s)
  {
    var z := "0" + s;
    assert z[0] == '0' && forall i :: 1 <= i < |z| ==> z[i] == s[i - 1];
    if s == "" {
      assert z[..|z| - 1] == "";
    } else {
      ZeroInFront(s[..|s| - 1]);
      assert z[..|z| - 1] == "0" + s[..|s| - 1];
    }
  }

  // Digits without a leading zero are a number of their own.
  lemma {:induction false} DigitsInjective(s: string, t: string)
    requires AllDigits(s) && AllDigits(t) && (s != "" ==> s[0] != '0') && (t != "" ==> t[0] != '0') && NumberOf(s) == NumberOf(t)
    ensures s == t
  {
    if s == "" || t == "" {
      if s != "" { NotZero(s); }
      if t != "" { NotZero(t); }
    } else {
      var a, b := s[..|s| - 1], t[..|t| - 1];
      LastDigit(NumberOf(a), DigitValue(s[|s| - 1]), NumberOf(b), DigitValue(t[|t| - 1]));
      DigitsInjective(a, b);
      assert s == a + [s[|s| - 1]] && t == b + [t[|t| - 1]];
    }
  }

  lemma LastDigit(a: nat, d: nat, b: nat, e: nat)
    requires d < 10 && e < 10 && 10 * a + d == 10 * b + e
    ensures a == b && d == e
  {
  }

  lemma {:induction false} NotZero(s: string)
    requires AllDigits(s) && s != "" && s[0] != '0'
    ensures NumberOf(s) > 0
  {
    if |s| > 1 { NotZero(s[..|s| - 1]); }
  }

  lemma LastDigitNotZero(s: string)
    requires AllDigits(s) && s != "" && s[|s| - 1] != '0'
    ensures NumberOf(s) % 10 != 0
  {
    assert DigitValue(s[|s| - 1]) != 0;
  }

  // ----- Powers of ten -----

  lemma PowerStep(e: int)
    ensures Power(e + 1) == 10.0 * Power(e)
  {
  }

  lemma PowerZero()
    ensures Power(0) == 1.0
  {
  }

  lemma {:induction false} PowerAdds(a: int, b: int)
    ensures Power(a + b) == Power(a) * Power(b)
    decreases if b < 0 then -b else b
  {
    hide Power;
    if b == 0 {
      PowerZero();
    } else if b > 0 {
      PowerAdds(a, b - 1);
      PowerStep(a + b - 1);
      PowerStep(b - 1);
      StepUp(Power(a), Power(b - 1), Power(a + b - 1));
    } else {
      PowerAdds(a, b + 1);
      PowerStep(a + b);
      PowerStep(b);
      StepDown(Power(a), Power(b), Power(a + b));
    }
  }

  lemma StepUp(x: real, y: real, z: real)
    requires z == x * y
    ensures 10.0 * z == x * (10.0 * y)
  {
  }

  lemma StepDown(x: real, y: real, z: real)
    requires 10.0 * z == x * (10.0 * y)
    ensures z == x * y
  {
    StepUp(x, y, x * y);
  }

  function Tens(k: nat): (n: nat)
    ensures n > 0
  {
    if k == 0 then 1 else 10 * Tens(k - 1)
  }

  lemma {:induction false} PowerIsTens(k: nat)
    ensures Power(k) == Tens(k) as real
  {
    if k > 0 { PowerIsTens(k - 1); }
  }

  // ----- The normal form denotes the number -----

  lemma {:induction false} TrailingValue(s: string, n: nat)
    requires AllDigits(s) && n <= TrailingZeros(s)
    ensures NumberOf(s) as real == NumberOf(s[..|s| - n]) as real * Power(n)
    decreases n
  {
    hide Power, NumberOf;
    if n > 0 {
      TrailingStep(s, 0);
      var t := s[..|s| - 1];
      TrailingValue(t, n - 1);
      assert t[..|t| - (n - 1)] == s[..|s| - n];
      PowerStep(n - 1);
      StepUp(NumberOf(s[..|s| - n]) as real, Power(n - 1), NumberOf(t) as real);
      ZeroAtEnd(s);
    } else {
      PowerZero();
      assert s[..|s|] == s;
    }
  }

  lemma ZeroAtEnd(s: string)
    requires AllDigits(s) && s != "" && s[|s| - 1] == '0'
    ensures NumberOf(s) as real == 10.0 * NumberOf(s[..|s| - 1]) as real
  {
  }

  datatype Normal = Zero | NonZero(negative: bool, digits: string, exponent: int)

  predicate WellFormed(n: Normal) {
    n.NonZero? ==> AllDigits(n.digits) && n.digits != "" && n.digits[0] != '0' && n.digits[|n.digits| - 1] != '0'
  }

  function NormalOf(p: Parts): (n: Normal)
    requires AllDigits(p.whole) && AllDigits(p.fraction)
    ensures WellFormed(n)
  {
    var digits := WithoutLeadingZeros(p.whole + p.fraction);
    if digits == "" then Zero
    else
      var zeros := TrailingZeros(digits);
      SomeDigitLeft(digits);
      NonZero(p.negative, digits[..|digits| - zeros], p.exponent - |p.fraction| + zeros)
  }

  lemma SomeDigitLeft(digits: string)
    requires digits != "" && digits[0] != '0'
    ensures TrailingZeros(digits) < |digits|
  {
    if TrailingZeros(digits) == |digits| { TrailingStep(digits, |digits| - 1); }
  }

  function Text(n: Normal): string {
    match n
    case Zero => "0e0"
    case NonZero(negative, digits, exponent) => (if negative then "-" else "") + digits + "e" + IntegerText(exponent)
  }

  function Signed(negative: bool, x: real): real {
    (if negative then -1.0 else 1.0) * x
  }

  function Value(n: Normal): real
    requires WellFormed(n)
  {
    match n
    case Zero => 0.0
    case NonZero(negative, digits, exponent) => Signed(negative, NumberOf(digits) as real * Power(exponent))
  }

  lemma NormalText(p: Parts)
    requires AllDigits(p.whole) && AllDigits(p.fraction)
    ensures NormalForm(p) == Text(NormalOf(p))
  {
  }

  // The normal form denotes the number that the decimal denotes.
  lemma NormalKeepsValue(p: Parts)
    requires AllDigits(p.whole) && AllDigits(p.fraction)
    ensures Value(NormalOf(p)) == Denotes(p)
  {
    hide Power, NumberOf, WithoutLeadingZeros, TrailingZeros;
    var all := p.whole + p.fraction;
    var digits := WithoutLeadingZeros(all);
    LeadingZerosSame(all);
    EmptyNumber();
    var e := p.exponent - |p.fraction|;
    if digits == "" {
      ZeroTimes(Power(e));
    } else {
      var zeros := TrailingZeros(digits);
      TrailingValue(digits, zeros);
      PowerAdds(e, zeros);
      var m := NumberOf(digits[..|digits| - zeros]) as real;
      Regroup(m, Power(zeros), Power(e));
    }
  }

  lemma EmptyNumber()
    ensures NumberOf("") == 0
  {
  }

  lemma ZeroTimes(x: real)
    ensures 0.0 * x == 0.0
  {
  }

  lemma Regroup(m: real, x: real, y: real)
    ensures m * (y * x) == (m * x) * y
  {
  }

  // ----- Equal numbers have equal normal forms -----

  lemma SameMagnitude(m: nat, a: int, n: nat, b: int)
    requires m % 10 != 0 && n % 10 != 0 && m as real * Power(a) == n as real * Power(b)
    ensures m == n && a == b
  {
    if a < b {
      Shifted(m, a, n, b);
    } else if b < a {
      Shifted(n, b, m, a);
    } else {
      Cancel(m as real, n as real, Power(a));
    }
  }

  lemma Cancel(x: real, y: real, z: real)
    requires z > 0.0 && x * z == y * z
    ensures x == y
  {
    assert x == x * z / z;
    assert y == y * z / z;
  }

  // A number times a smaller power of ten can only be a multiple of ten.
  lemma Shifted(m: nat, a: int, n: nat, b: int)
    requires a < b && m as real * Power(a) == n as real * Power(b)
    ensures m % 10 == 0
  {
    hide Power, Tens;
    var k := b - a;
    PowerAdds(a, k);
    PowerIsTens(k);
    Regroup(n as real, Power(k), Power(a));
    Cancel(m as real, n as real * Power(k), Power(a));
    ProductOfNats(m, n, Tens(k));
    MultipleOfTen(n, k);
  }

  lemma ProductOfNats(m: nat, n: nat, k: nat)
    requires m as real == n as real * k as real
    ensures m == n * k
  {
    assert n as real * k as real == (n * k) as real;
  }

  lemma MultipleOfTen(n: nat, k: nat)
    requires k > 0
    ensures n * Tens(k) % 10 == 0
  {
    assert n * Tens(k) == 10 * (n * Tens(k - 1));
  }

  lemma Positive(n: Normal)
    requires WellFormed(n) && n.NonZero?
    ensures NumberOf(n.digits) as real * Power(n.exponent) > 0.0
  {
    NotZero(n.digits);
    PositiveProduct(NumberOf(n.digits) as real, Power(n.exponent));
  }

  lemma PositiveProduct(x: real, y: real)
    requires x > 0.0 && y > 0.0
    ensures x * y > 0.0
  {
  }

  lemma SameValueSameNormal(x: Normal, y: Normal)
    requires WellFormed(x) && WellFormed(y) && Value(x) == Value(y)
    ensures x == y
  {
    hide Power, NumberOf;
    if x.NonZero? { Positive(x); }
    if y.NonZero? { Positive(y); }
    if x.NonZero? && y.NonZero? {
      LastDigitNotZero(x.digits);
      LastDigitNotZero(y.digits);
      SameMagnitude(NumberOf(x.digits), x.exponent, NumberOf(y.digits), y.exponent);
      DigitsInjective(x.digits, y.digits);
    }
  }

  // ----- Texts of normal forms differ -----

  lemma IntegerTextInjective(m: int, n: int)
    requires IntegerText(m) == IntegerText(n)
    ensures m == n
  {
    var x, y := if m < 0 then -m else m, if n < 0 then -n else n;
    Pointers.DecimalPlain(x);
    Pointers.DecimalPlain(y);
    assert (m < 0) == (n < 0) by {
      assert IntegerText(m)[0] == '-' <==> m < 0;
      assert IntegerText(n)[0] == '-' <==> n < 0;
    }
    if m < 0 {
      assert IntegerText(m)[1..] == Pointers.Decimal(x) && IntegerText(n)[1..] == Pointers.Decimal(y);
    }
    Pointers.DecimalInjective(x, y);
  }

  lemma SplitAtE(a: string, x: string, b: string, y: string)
    requires AllDigits(a) && AllDigits(b) && a + "e" + x == b + "e" + y
    ensures a == b && x == y
  {
    if |a| < |b| {
      LongerHasE(a, x, b, y);
    } else if |b| < |a| {
      LongerHasE(b, y, a, x);
    } else {
      var s := a + "e" + x;
      assert a == s[..|a|] && b == s[..|b|];
      assert x == s[|a| + 1..] && y == s[|b| + 1..];
    }
  }

  lemma LongerHasE(a: string, x: string, b: string, y: string)
    requires a + "e" + x == b + "e" + y && |a| < |b|
    ensures 'e' in b
  {
    var s := a + "e" + x;
    assert s == b + "e" + y;
    assert b[|a|] == s[|a|] == 'e';
  }

  // A text is an optional sign, digits, and an exponent.
  function Digits(n: Normal): string {
    if n.Zero? then "0" else n.digits
  }

  function Exponent(n: Normal): string {
    if n.Zero? then "0" else IntegerText(n.exponent)
  }

  predicate IsNegative(n: Normal) {
    n.NonZero? && n.negative
  }

  lemma TextParts(n: Normal)
    requires WellFormed(n)
    ensures AllDigits(Digits(n)) && Digits(n) != ""
    ensures Text(n) == if IsNegative(n) then "-" + (Digits(n) + "e" + Exponent(n)) else Digits(n) + "e" + Exponent(n)
  {
    if n.Zero? { ZeroText(); }
  }

  lemma SignShows(n: Normal)
    requires WellFormed(n)
    ensures Text(n) != "" && (IsNegative(n) <==> Text(n)[0] == '-')
    ensures IsNegative(n) ==> Text(n)[1..] == Digits(n) + "e" + Exponent(n)
  {
    hide Text, Digits, Exponent;
    TextParts(n);
    assert !IsNegative(n) ==> Text(n)[0] == Digits(n)[0];
  }

  lemma TextInjective(x: Normal, y: Normal)
    requires WellFormed(x) && WellFormed(y) && Text(x) == Text(y)
    ensures x == y
  {
    hide Text, IntegerText;
    TextParts(x);
    TextParts(y);
    SignShows(x);
    SignShows(y);
    SplitAtE(Digits(x), Exponent(x), Digits(y), Exponent(y));
    if x.NonZero? && y.NonZero? { IntegerTextInjective(x.exponent, y.exponent); }
  }

  lemma ZeroText()
    ensures "0e0" == "0" + "e" + "0"
  {
  }

  // ----- The theorem -----

  // Two decimals have the same normal form exactly when they denote the same rational number.
  lemma CanonicalDecidesValue(x: string, y: string)
    requires Match(x).Some? && Match(y).Some?
    ensures Canonical(x) == Canonical(y) <==> Denotes(Match(x).value) == Denotes(Match(y).value)
  {
    hide Match, Text, Denotes, NormalForm, NormalOf, Value;
    var p, q := Match(x).value, Match(y).value;
    NormalText(p);
    NormalText(q);
    NormalKeepsValue(p);
    NormalKeepsValue(q);
    if Canonical(x) == Canonical(y) {
      TextInjective(NormalOf(p), NormalOf(q));
    }
    if Denotes(p) == Denotes(q) {
      SameValueSameNormal(NormalOf(p), NormalOf(q));
    }
  }
}
