/** JavaScript's view of the loosely-typed numbers that arrive from the
    generator or from the editing inputs: what `Number(x)` or
    `parseFloat(x)` makes of a value, and the two falsy-fallback idioms
    built on it. */
module Numbers {
  import opened JsText

  /** The number `Number(x)` or `parseFloat(x)` yields: a finite value or
      NaN. Money and quantities are exact reals here, not IEEE doubles. */
  datatype Numeric = Finite(value: real) | NaN

  /** `Number(x) || 0`: NaN (and zero) read as 0. */
  function OrZero(n: Numeric): real
  {
    if n.Finite? then n.value else 0.0
  }

  /** `parseFloat(q) || 1`: NaN and zero are both falsy, so both read as 1. */
  function OrOne(n: Numeric): real
  {
    if n.Finite? && n.value != 0.0 then n.value else 1.0
  }

  predicate IsDigit(c: char)
  {
    '0' <= c <= '9'
  }

  predicate AllDigits(s: string)
  {
    forall i :: 0 <= i < |s| ==> IsDigit(s[i])
  }

  function DigitValue(c: char): nat
    requires IsDigit(c)
  {
    c as int - '0' as int
  }

  function DigitChar(d: nat): char
    requires d < 10
  {
    ('0' as int + d) as char
  }

  /** Length of the run of decimal digits that `s` starts with. */
  function DigitRun(s: string): (n: nat)
    ensures n <= |s|
    ensures AllDigits(s[..n])
    ensures n < |s| ==> !IsDigit(s[n])
  {
    if s != [] && IsDigit(s[0]) then
      var k := DigitRun(s[1..]);
      assert s[..k + 1] == [s[0]] + s[1..][..k];
      k + 1
    else 0
  }

  /** The value of a run of decimal digits read as an integer. */
  function IntegerValue(ds: string): nat
    requires AllDigits(ds)
  {
    if ds == [] then 0
    else IntegerValue(ds[..|ds| - 1]) * 10 + DigitValue(ds[|ds| - 1])
  }

  /** The value of a run of decimal digits read after a decimal point. */
  function FractionValue(ds: string): real
    requires AllDigits(ds)
  {
    if ds == [] then 0.0
    else (DigitValue(ds[0]) as real + FractionValue(ds[1..])) / 10.0
  }

  /** `parseFloat(s)`: leading white space is skipped, then an optional
      sign, a run of digits and an optional `.` with a run of digits are
      read; whatever follows is ignored. With no digit at all the result
      is NaN. */
  function ParseFloat(s: string): Numeric
  {
    var t := TrimStart(s);
    if t != [] && (t[0] == '-' || t[0] == '+') then ParseUnsigned(t[1..], t[0] == '-')
    else ParseUnsigned(t, false)
  }

  /** The digits, and the fraction after a `.`, at the start of `body`,
      negated when a `-` preceded them. */
  function ParseUnsigned(body: string, negative: bool): Numeric
  {
    var n := DigitRun(body);
    var frac := FractionDigits(body[n..]);
    if n == 0 && frac == [] then NaN
    else
      var magnitude := IntegerValue(body[..n]) as real + FractionValue(frac);
      Finite(if negative then -magnitude else magnitude)
  }

  /** The digits after a leading `.`, if any. */
  function FractionDigits(rest: string): (ds: string)
    ensures AllDigits(ds)
    ensures ds != [] ==> |rest| > 1 && rest[0] == '.' && IsDigit(rest[1])
  {
    if rest != [] && rest[0] == '.' then rest[1..][..DigitRun(rest[1..])] else []
  }

  /** The decimal rendering of a natural number, as `String(n)` gives it. */
  function Decimal(n: nat): (s: string)
    ensures s != [] && AllDigits(s)
  {
    if n < 10 then [DigitChar(n)] else Decimal(n / 10) + [DigitChar(n % 10)]
  }

  lemma {:induction false} DecimalValue(n: nat)
    ensures IntegerValue(Decimal(n)) == n
  {
    if n >= 10 {
      var s := Decimal(n);
      assert s[..|s| - 1] == Decimal(n / 10);
      DecimalValue(n / 10);
    }
  }

  lemma {:induction false} DigitRunOfDigits(s: string, rest: string)
    requires AllDigits(s)
    requires rest == [] || !IsDigit(rest[0])
    ensures DigitRun(s + rest) == |s|
  {
    if s != [] {
      assert (s + rest)[1..] == s[1..] + rest;
      DigitRunOfDigits(s[1..], rest);
    }
  }

  /** The text after a run of digits cannot continue a decimal literal:
      it is empty or starts with neither a digit, nor the `.` of a fraction,
      nor the `e`/`E` of an exponent part. */
  predicate EndsLiteral(rest: string)
  {
    rest == [] || (!IsDigit(rest[0]) && rest[0] != '.' && rest[0] != 'e' && rest[0] != 'E')
  }

  /** A quantity that starts with a whole number reads as that number
      when the text after it cannot continue the literal
      (`parseFloat("2 units")` is 2). */
  lemma ParseFloatLeadingInteger(n: nat, rest: string)
    requires EndsLiteral(rest)
    ensures ParseFloat(Decimal(n) + rest) == Finite(n as real)
  {
    var d := Decimal(n);
    DecimalValue(n);
    ParseFloatOfDigits(d, rest);
  }

  /** A run of digits followed by text that cannot continue a number
      reads as the run's integer value. */
  lemma ParseFloatOfDigits(d: string, rest: string)
    requires d != [] && AllDigits(d)
    requires EndsLiteral(rest)
    ensures ParseFloat(d + rest) == Finite(IntegerValue(d) as real)
  {
    var s := d + rest;
    assert s[0] == d[0];
    StartsWithDigit(s);
    UnsignedOfDigits(d, rest);
  }

  /** Text starting with a digit has no white space or sign to skip. */
  lemma StartsWithDigit(s: string)
    requires s != [] && IsDigit(s[0])
    ensures ParseFloat(s) == ParseUnsigned(s, false)
  {
    assert TrimStart(s) == s by {
      assert !IsJsSpace(s[0]);
    }
  }

  lemma UnsignedOfDigits(d: string, rest: string)
    requires d != [] && AllDigits(d)
    requires EndsLiteral(rest)
    ensures ParseUnsigned(d + rest, false) == Finite(IntegerValue(d) as real)
  {
    var s := d + rest;
    assert DigitRun(s) == |d| by {
      DigitRunOfDigits(d, rest);
    }
    assert s[..|d|] == d && s[|d|..] == rest;
    assert FractionDigits(rest) == [];
  }

  /** Text without a digit never parses: `parseFloat` gives NaN (the
      digit-free spelling `Infinity` is outside the modelled grammar). */
  lemma ParseFloatNoDigit(s: string)
    requires forall i :: 0 <= i < |s| ==> !IsDigit(s[i])
    ensures ParseFloat(s) == NaN
  {
    var t := TrimStart(s);
    assert forall i :: 0 <= i < |t| ==> !IsDigit(t[i]) by {
      assert forall i :: 0 <= i < |t| ==> t[i] == s[|s| - |t| + i];
    }
    if t != [] && (t[0] == '-' || t[0] == '+') {
      UnsignedNoDigit(t[1..], t[0] == '-');
    } else {
      UnsignedNoDigit(t, false);
    }
  }

  lemma UnsignedNoDigit(body: string, negative: bool)
    requires forall i :: 0 <= i < |body| ==> !IsDigit(body[i])
    ensures ParseUnsigned(body, negative) == NaN
  {
    var rest := body[DigitRun(body)..];
    assert DigitRun(body) == 0;
    assert FractionDigits(rest) == [] by {
      if |rest| > 1 {
        assert !IsDigit(rest[1]);
      }
    }
  }
}
