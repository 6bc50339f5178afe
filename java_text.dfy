/** The few Java library conversions between numbers and text that the
    extension relies on: Long.toString, Integer.parseInt, the decimal forms
    read by Double.valueOf, string conversion of a possibly-null reference,
    and String.toUpperCase on the unit preference.  */
module JavaText {
  import opened Wrappers

  const IntMin: int := -0x8000_0000
  const IntMax: int := 0x7fff_ffff

  predicate IsDigit(c: char) { '0' <= c <= '9' }

  predicate AllDigits(s: string) { forall i :: 0 <= i < |s| ==> IsDigit(s[i]) }

  function DigitValue(c: char): (d: nat)
    requires IsDigit(c)
    ensures d < 10
  {
    c as int - '0' as int
  }

  function DigitChar(d: nat): (c: char)
    requires d < 10
    ensures IsDigit(c) && DigitValue(c) == d
  {
    (d + '0' as int) as char
  }

  /** The value of a string of decimal digits, most significant digit first.  */
  function DigitsValue(s: string): nat
    requires AllDigits(s)
    decreases |s|
  {
    if s == [] then 0 else DigitsValue(s[..|s| - 1]) * 10 + DigitValue(s[|s| - 1])
  }

  function Pow10(n: nat): (p: nat)
    ensures p > 0
  {
    if n == 0 then 1 else 10 * Pow10(n - 1)
  }

  /** The shortest decimal spelling of n: it reads back as n and has no
      leading zero.  */
  function NatDigits(n: nat): (s: string)
    ensures s != [] && AllDigits(s) && DigitsValue(s) == n
    ensures s[0] == '0' ==> s == "0"
    decreases n
  {
    if n < 10 then [DigitChar(n)]
    else
      var high := NatDigits(n / 10);
      var s := high + [DigitChar(n % 10)];
      assert s[..|s| - 1] == high;
      s
  }

  /** Long.toString(n): a minus sign for negative numbers, then the digits.  */
  function LongToString(n: int): (s: string)
    ensures s != [] && (s[0] == '-' <==> n < 0)
  {
    if n < 0 then "-" + NatDigits(-n) else NatDigits(n)
  }

  /** Integer.parseInt(s): an optional '+' or '-', then at least one decimal
      digit, with the value inside the 32-bit range; None where Java throws
      NumberFormatException.  */
  function ParseInt(s: string): (r: Option<int>)
    ensures r.Some? ==> IntMin <= r.value <= IntMax
    ensures r.Some? ==> s != [] && var d := (if s[0] == '-' || s[0] == '+' then s[1..] else s);
                        d != [] && AllDigits(d)
    ensures r.Some? && r.value < 0 ==> s[0] == '-'
    ensures (s != [] && var d := (if s[0] == '-' || s[0] == '+' then s[1..] else s);
             d != [] && AllDigits(d) && DigitsValue(d) <= IntMax) ==> r.Some?
  {
    if s == [] then None
    else
      var digits := if s[0] == '-' || s[0] == '+' then s[1..] else s;
      if digits == [] || !AllDigits(digits) then None
      else
        var v: int := if s[0] == '-' then 0 - DigitsValue(digits) as int else DigitsValue(digits);
        if IntMin <= v <= IntMax then Some(v) else None
  }

  /** Length of the run of digits that starts s.  */
  function DigitRun(s: string): (k: nat)
    ensures k <= |s| && AllDigits(s[..k])
    ensures k < |s| ==> !IsDigit(s[k])
  {
    if s == [] || !IsDigit(s[0]) then 0
    else
      var k := 1 + DigitRun(s[1..]);
      assert s[..k] == [s[0]] + s[1..][..k - 1];
      k
  }

  /** An unsigned decimal: digits, optionally followed by '.' and more digits.  */
  function ParseUnsignedDecimal(s: string): (r: Option<real>)
    ensures r.Some? ==> s != [] && IsDigit(s[0]) && r.value >= 0.0
  {
    var k := DigitRun(s);
    if k == 0 then None
    else if k == |s| then Some(DigitsValue(s) as real)
    else if s[k] == '.' && k + 1 < |s| && AllDigits(s[k + 1..]) then
      Some(DigitsValue(s[..k]) as real + (DigitsValue(s[k + 1..]) as real) / (Pow10(|s| - k - 1) as real))
    else None
  }

  /** Double.valueOf(s), restricted to plain decimals with an optional sign,
      read as an exact real; None where this model does not accept the text.  */
  function ParseDecimal(s: string): (r: Option<real>)
    ensures s != [] && AllDigits(s) ==> r == Some(DigitsValue(s) as real)
    ensures r.Some? ==> s != [] && (IsDigit(s[0]) || ((s[0] == '-' || s[0] == '+') && |s| > 1 && IsDigit(s[1])))
    ensures r.Some? && r.value < 0.0 ==> s[0] == '-'
  {
    if AllDigits(s) then DigitRunOfDigits(s); ParseUnsignedDecimal(s)
    else if s != [] && (s[0] == '-' || s[0] == '+') then
      match ParseUnsignedDecimal(s[1..])
      case None => None
      case Some(m) => Some(if s[0] == '-' then -m else m)
    else ParseUnsignedDecimal(s)
  }

  /** What Java string concatenation and String.format make of a reference
      that may be null.  */
  function JavaString(o: Option<string>): (t: string)
    ensures o.None? ==> t == "null"
    ensures o.Some? ==> t == o.value
  {
    match o
    case None => "null"
    case Some(s) => s
  }

  function UpperChar(c: char): (u: char)
    ensures 'a' <= c <= 'z' ==> 'A' <= u <= 'Z' && u as int == c as int - 32
    ensures !('a' <= c <= 'z') ==> u == c
  {
    if 'a' <= c <= 'z' then (c as int - 'a' as int + 'A' as int) as char else c
  }

  /** String.toUpperCase(Locale.US), on ASCII letters.  */
  function ToUpperAscii(s: string): (u: string)
    ensures |u| == |s|
    ensures forall i :: 0 <= i < |s| ==> u[i] == UpperChar(s[i])
    ensures forall i :: 0 <= i < |u| ==> !('a' <= u[i] <= 'z')
  {
    seq(|s|, i requires 0 <= i < |s| => UpperChar(s[i]))
  }

  lemma {:induction false} DigitRunOfDigits(s: string)
    requires AllDigits(s)
    ensures DigitRun(s) == |s|
  {
    if s != [] {
      DigitRunOfDigits(s[1..]);
    }
  }

  /** The digit run of a text stops where its leading digits do.  */
  lemma {:induction false} DigitRunStops(a: string, b: string)
    requires AllDigits(a) && b != [] && !IsDigit(b[0])
    ensures DigitRun(a + b) == |a|
  {
    if a != [] {
      assert (a + b)[1..] == a[1..] + b;
      DigitRunStops(a[1..], b);
    }
  }

  /** An integer part, a point and a fraction part: the value of both parts.  */
  lemma UnsignedWithFraction(s: string, k: nat)
    requires 0 < k && k + 1 < |s| && DigitRun(s) == k && s[k] == '.' && AllDigits(s[k + 1..])
    ensures ParseUnsignedDecimal(s) ==
              Some(DigitsValue(s[..k]) as real + (DigitsValue(s[k + 1..]) as real) / (Pow10(|s| - k - 1) as real))
  {
  }

  lemma SingleDigitValue(c: char)
    requires IsDigit(c)
    ensures DigitsValue([c]) == DigitValue(c)
  {
    assert [c][..0] == [];
  }

  /** Digits, a point and one more digit: the whole part plus a tenth.  */
  lemma UnsignedOneDecimal(s: string)
    requires |s| >= 3 && AllDigits(s[..|s| - 2]) && s[|s| - 2] == '.' && IsDigit(s[|s| - 1])
    ensures ParseUnsignedDecimal(s) == Some(DigitsValue(s[..|s| - 2]) as real + DigitValue(s[|s| - 1]) as real / 10.0)
  {
    var k := |s| - 2;
    assert DigitRun(s) == k by {
      assert s == s[..k] + s[k..];
      DigitRunStops(s[..k], s[k..]);
    }
    assert DigitsValue(s[k + 1..]) == DigitValue(s[k + 1]) by {
      assert s[k + 1..] == [s[k + 1]];
      SingleDigitValue(s[k + 1]);
    }
    assert Pow10(|s| - k - 1) == 10 by {
      assert Pow10(1) == 10 * Pow10(0);
    }
    UnsignedWithFraction(s, k);
  }

  /** A decimal with one fractional digit, the form the weather feed sends
      ("13.5"), reads as the whole part plus a tenth of that digit.  */
  lemma OneDecimalDigit(n: nat, t: nat)
    requires t < 10
    ensures ParseDecimal(NatDigits(n) + "." + [DigitChar(t)]) == Some(n as real + t as real / 10.0)
  {
    var w := NatDigits(n);
    var s := w + "." + [DigitChar(t)];
    assert s[..|s| - 2] == w && s[|s| - 2] == '.' && s[|s| - 1] == DigitChar(t);
    UnsignedOneDecimal(s);
    assert s[0] == w[0];
    assert !AllDigits(s) by {
      assert !IsDigit(s[|w|]);
    }
  }

  /** The same form with a minus sign ("-2.3") reads as the negated value.  */
  lemma NegativeOneDecimalDigit(n: nat, t: nat)
    requires t < 10
    ensures ParseDecimal("-" + NatDigits(n) + "." + [DigitChar(t)]) == Some(-(n as real + t as real / 10.0))
  {
    var u := NatDigits(n) + "." + [DigitChar(t)];
    var s := "-" + u;
    assert s == "-" + NatDigits(n) + "." + [DigitChar(t)];
    OneDecimalDigit(n, t);
    assert !AllDigits(u) && ParseDecimal(u) == ParseUnsignedDecimal(u) by {
      assert !IsDigit(u[|NatDigits(n)|]);
    }
    assert s[1..] == u;
    assert !AllDigits(s) by {
      assert !IsDigit(s[0]);
    }
  }

  /** Integer.parseInt reads back every 32-bit value that Long.toString writes.  */
  lemma ParseIntOfLongToString(n: int)
    requires IntMin <= n <= IntMax
    ensures ParseInt(LongToString(n)) == Some(n)
  {
    var s := LongToString(n);
    if n < 0 {
      assert s[1..] == NatDigits(-n);
    } else {
      assert IsDigit(s[0]);
    }
  }

  /** The decimal reading agrees with Integer.parseInt on the integers it accepts.  */
  lemma ParseDecimalOfInt(s: string, n: int)
    requires ParseInt(s) == Some(n)
    ensures ParseDecimal(s) == Some(n as real)
  {
    var digits := if s[0] == '-' || s[0] == '+' then s[1..] else s;
    DigitRunOfDigits(digits);
  }

  /** Every string Long.toString writes reads back, as a decimal, as the same number.  */
  lemma ParseDecimalOfLongToString(n: int)
    ensures ParseDecimal(LongToString(n)) == Some(n as real)
  {
    var s := LongToString(n);
    if n < 0 {
      assert s[1..] == NatDigits(-n);
      DigitRunOfDigits(NatDigits(-n));
    } else {
      assert IsDigit(s[0]);
      DigitRunOfDigits(s);
    }
  }
}
