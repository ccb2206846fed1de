/** The number conversions the list routes and the file page rely on:
    JavaScript's `parseInt(s)` (no radix argument), the decimal rendering of a
    non-negative integer, and `Math.ceil(a / b)` on integers. */
module Numbers {
  import opened Common

  /** The ASCII white space `parseInt` skips before the number. */
  predicate IsWhite(c: char) {
    c == ' ' || c == '\t' || c == '\n' || c == '\r' || c == '\U{B}' || c == '\U{C}'
  }

  function TrimLeadingWhite(s: string): (r: string)
    ensures |r| <= |s| && r == s[|s| - |r|..]
    ensures r != [] ==> !IsWhite(r[0])
  {
    if s != [] && IsWhite(s[0]) then TrimLeadingWhite(s[1..]) else s
  }

  /** The value of a digit in radix 36 (`0-9`, then `a-z` or `A-Z`), or 36 for
      a character that is no digit in any radix. */
  function DigitValue(c: char): (d: nat)
    ensures d <= 36
    ensures '0' <= c <= '9' ==> d == c as int - '0' as int
  {
    if '0' <= c <= '9' then c as int - '0' as int
    else if 'a' <= c <= 'z' then c as int - 'a' as int + 10
    else if 'A' <= c <= 'Z' then c as int - 'A' as int + 10
    else 36
  }

  /** The length of the longest prefix of `s` made of digits of `radix`. */
  function DigitPrefixLength(s: string, radix: nat): (n: nat)
    ensures n <= |s|
    ensures forall i :: 0 <= i < n ==> DigitValue(s[i]) < radix
    ensures n < |s| ==> DigitValue(s[n]) >= radix
  {
    if s != [] && DigitValue(s[0]) < radix then 1 + DigitPrefixLength(s[1..], radix) else 0
  }

  /** The value of a string of digits of `radix`, most significant first. */
  function DigitsValue(s: string, radix: nat): nat {
    if s == [] then 0 else DigitsValue(s[..|s| - 1], radix) * radix + DigitValue(s[|s| - 1])
  }

  /** The digits after the sign: base 16 after a `0x` or `0X` prefix, base 10
      otherwise, read up to the first character that is not a digit; `None`
      when there is no digit at all. */
  function ParseUnsigned(u: string): (r: Option<nat>)
    ensures r.None? <==>
              if |u| >= 2 && u[0] == '0' && (u[1] == 'x' || u[1] == 'X') then DigitPrefixLength(u[2..], 16) == 0
              else DigitPrefixLength(u, 10) == 0
  {
    if |u| >= 2 && u[0] == '0' && (u[1] == 'x' || u[1] == 'X') then
      var n := DigitPrefixLength(u[2..], 16);
      if n == 0 then None else Some(DigitsValue(u[2..][..n], 16))
    else
      var n := DigitPrefixLength(u, 10);
      if n == 0 then None else Some(DigitsValue(u[..n], 10))
  }

  /** `parseInt(s)`: skip leading white space, read an optional sign, then the
      digits; `None` is NaN. */
  function ParseInt(s: string): (r: Option<int>)
    ensures var t := TrimLeadingWhite(s);
            var signed := t != [] && (t[0] == '-' || t[0] == '+');
            var u := ParseUnsigned(if signed then t[1..] else t);
            && (r.None? <==> u.None?)
            && (r.Some? && t != [] && t[0] == '-' ==> r.value == -(u.value as int))
            && (r.Some? && !(t != [] && t[0] == '-') ==> r.value == u.value)
  {
    var t := TrimLeadingWhite(s);
    if t != [] && t[0] == '-' then
      match ParseUnsigned(t[1..])
      case None => None
      case Some(v) => Some(-(v as int))
    else if t != [] && t[0] == '+' then
      match ParseUnsigned(t[1..])
      case None => None
      case Some(v) => Some(v)
    else
      match ParseUnsigned(t)
      case None => None
      case Some(v) => Some(v)
  }

  /** `String(n)` for a non-negative integer: its decimal digits, without
      leading zeros. */
  function NatToDecimal(n: nat): (s: string)
    ensures |s| >= 1
    ensures forall i :: 0 <= i < |s| ==> '0' <= s[i] <= '9'
    ensures s[0] == '0' ==> n == 0 && s == "0"
  {
    if n < 10 then [(n + '0' as int) as char]
    else NatToDecimal(n / 10) + [(n % 10 + '0' as int) as char]
  }

  lemma {:induction false} DecimalValue(n: nat)
    ensures DigitsValue(NatToDecimal(n), 10) == n
  {
    if n >= 10 {
      DecimalValue(n / 10);
      var s := NatToDecimal(n);
      assert s[..|s| - 1] == NatToDecimal(n / 10);
    }
  }

  lemma {:induction false} AllDigitsPrefix(s: string, radix: nat)
    requires forall i :: 0 <= i < |s| ==> DigitValue(s[i]) < radix
    ensures DigitPrefixLength(s, radix) == |s|
  {
    if s != [] { AllDigitsPrefix(s[1..], radix); }
  }

  /** The digits of a decimal rendering read back as the number, in base 10. */
  lemma DecimalDigitsReadBack(n: nat)
    ensures ParseUnsigned(NatToDecimal(n)) == Some(n)
  {
    var s := NatToDecimal(n);
    assert !(|s| >= 2 && s[0] == '0');
    assert forall i :: 0 <= i < |s| ==> DigitValue(s[i]) < 10;
    AllDigitsPrefix(s, 10);
    DecimalValue(n);
    assert s[..|s|] == s;
  }

  /** `parseInt` reads back the decimal rendering of every non-negative integer. */
  lemma ParseDecimal(n: nat)
    ensures ParseInt(NatToDecimal(n)) == Some(n)
  {
    var s := NatToDecimal(n);
    assert !IsWhite(s[0]) && s[0] != '-' && s[0] != '+';
    assert TrimLeadingWhite(s) == s;
    DecimalDigitsReadBack(n);
  }

  /** `Math.ceil(a / b)` for a non-zero integer divisor (Dafny's `/` is
      Euclidean, so both signs of `b` are spelled out). */
  function CeilDiv(a: int, b: int): (q: int)
    requires b != 0
    ensures b > 0 ==> (q - 1) * b < a <= q * b
    ensures b < 0 ==> q * b <= a < (q - 1) * b
  {
    if b > 0 then
      var q := -((-a) / b);
      assert -a == b * ((-a) / b) + (-a) % b;
      q
    else
      var q := -(a / (-b));
      assert a == (-b) * (a / (-b)) + a % (-b);
      q
  }
}
