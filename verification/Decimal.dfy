/** The decimal printer and parser of package strconv, for base ten. */
module Decimal {
  import opened Common

  const INT64_MIN: int := -0x8000_0000_0000_0000
  const INT64_MAX: int := 0x7FFF_FFFF_FFFF_FFFF

  predicate IsDigit(c: char) {
    '0' <= c <= '9'
  }

  predicate AllDigits(s: string) {
    forall i :: 0 <= i < |s| ==> IsDigit(s[i])
  }

  function FormatNat(n: nat): (s: string)
    ensures s != "" && AllDigits(s)
  {
    var d := ['0' + (n % 10) as char];
    if n < 10 then d else FormatNat(n / 10) + d
  }

  function DigitsValue(s: string): nat
    requires AllDigits(s)
  {
    if s == "" then 0 else 10 * DigitsValue(Front(s)) + (Last(s) - '0') as nat
  }

  lemma {:induction false} DigitsValueFormatNat(n: nat)
    ensures DigitsValue(FormatNat(n)) == n
  {
    var d := ['0' + (n % 10) as char];
    if n >= 10 {
      DigitsValueFormatNat(n / 10);
      assert Front(FormatNat(n / 10) + d) == FormatNat(n / 10);
    } else {
      assert Front(d) == "";
    }
  }

  function FormatInt(n: int): (s: string)
    ensures s != ""
  {
    if n < 0 then "-" + FormatNat(-n) else FormatNat(n)
  }

  /** Optional sign, at least one digit, and the value must fit in 64 bits. */
  function ParseInt(s: string): Option<int> {
    var signed := s != "" && (s[0] == '-' || s[0] == '+');
    var digits := if signed then s[1..] else s;
    if digits == "" || !AllDigits(digits) then
      None
    else
      var magnitude: int := DigitsValue(digits);
      var n := if signed && s[0] == '-' then -magnitude else magnitude;
      if INT64_MIN <= n <= INT64_MAX then Some(n) else None
  }

  lemma ParseFormatInt(n: int)
    ensures ParseInt(FormatInt(n)) == if INT64_MIN <= n <= INT64_MAX then Some(n) else None
  {
    DigitsValueFormatNat(if n < 0 then -n else n);
    if n < 0 {
      assert FormatInt(n)[1..] == FormatNat(-n);
    } else {
      assert IsDigit(FormatNat(n)[0]);
    }
  }

  // ---------- What numerals mean ----------

  function Power(n: nat): nat {
    if n == 0 then 1 else 10 * Power(n - 1)
  }

  /** The value of a digit string by place, the leading digit first. */
  function PlaceValue(s: string): nat
    requires AllDigits(s)
  {
    if s == "" then 0 else (s[0] - '0') as nat * Power(|s| - 1) + PlaceValue(s[1..])
  }

  lemma {:induction false} PlaceValueSnoc(s: string, c: char)
    requires AllDigits(s) && IsDigit(c)
    ensures PlaceValue(s + [c]) == 10 * PlaceValue(s) + (c - '0') as nat
  {
    if s == "" {
      assert ([] + [c])[1..] == "" && Power(0) == 1;
      assert s + [c] == [c];
    } else {
      assert (s + [c])[1..] == s[1..] + [c];
      PlaceValueSnoc(s[1..], c);
      assert Power(|s|) == 10 * Power(|s| - 1);
      var d := (s[0] - '0') as nat;
      assert d * Power(|s|) == 10 * (d * Power(|s| - 1));
    }
  }

  lemma {:induction false} DigitsValueByPlace(s: string)
    requires AllDigits(s)
    ensures DigitsValue(s) == PlaceValue(s)
  {
    if s != "" {
      DigitsValueByPlace(Front(s));
      assert s == Front(s) + [Last(s)];
      PlaceValueSnoc(Front(s), Last(s));
    }
  }

  /** An optional sign and at least one digit, with value u. */
  ghost predicate IsNumeral(sign: string, digits: string, s: string, u: int) {
    && s == sign + digits && (sign == "" || sign == "+" || sign == "-")
    && digits != "" && AllDigits(digits)
    && u == (if sign == "-" then -1 else 1) * PlaceValue(digits)
  }

  ghost predicate NumeralOf(s: string, u: int) {
    exists sign, digits :: IsNumeral(sign, digits, s, u)
  }

  lemma NumeralParts(sign: string, digits: string, s: string, u: int)
    requires IsNumeral(sign, digits, s, u)
    ensures sign == if s[0] == '-' || s[0] == '+' then [s[0]] else ""
    ensures digits == if s[0] == '-' || s[0] == '+' then s[1..] else s
  {
    if sign == "" {
      assert s == digits && IsDigit(s[0]);
    } else {
      assert s[0] == sign[0] && s[1..] == digits;
    }
  }

  /** Parsing succeeds exactly on the numerals of 64-bit integers, with their value. */
  lemma ParseIntIff(s: string, u: int)
    ensures ParseInt(s) == Some(u) <==> NumeralOf(s, u) && INT64_MIN <= u <= INT64_MAX
  {
    if ParseInt(s) == Some(u) {
      var signed := s[0] == '-' || s[0] == '+';
      var sign, digits := if signed then [s[0]] else "", if signed then s[1..] else s;
      DigitsValueByPlace(digits);
      assert s == sign + digits;
      assert IsNumeral(sign, digits, s, u);
    }
    if NumeralOf(s, u) && INT64_MIN <= u <= INT64_MAX {
      var sign, digits :| IsNumeral(sign, digits, s, u);
      NumeralParts(sign, digits, s, u);
      DigitsValueByPlace(digits);
    }
  }
}
