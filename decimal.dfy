/** Python's `str(n)` for integers, and its inverse: ids go into URLs and dictionary keys this way. */
module Decimal {

  predicate IsDigit(c: char) {
    '0' <= c <= '9'
  }

  function DigitChar(d: nat): (c: char)
    requires d < 10
    ensures IsDigit(c)
  {
    "0123456789"[d]
  }

  function DigitValue(c: char): nat
    requires IsDigit(c)
  {
    c as nat - '0' as nat
  }

  /**
   * Decimal digits of n, most significant first, no leading zero: the
   * digits of n / 10 followed by the last digit.
   */
  function NatToString(n: nat): string
    decreases n, 0
  {
    if n < 10 then [DigitChar(n)] else IntToString(n / 10) + [DigitChar(n % 10)]
  }

  /** `str` of a natural number is made of digits only. */
  lemma {:induction false} NatToStringDigits(n: nat)
    ensures |NatToString(n)| >= 1
    ensures forall i :: 0 <= i < |NatToString(n)| ==> IsDigit(NatToString(n)[i])
    decreases n
  {
    if n >= 10 {
      NatToStringDigits(n / 10);
      assert IntToString(n / 10) == NatToString(n / 10);
    }
  }

  /** `str(i)`. */
  function IntToString(i: int): string
    decreases if i < 0 then -i else i, 1
  {
    if i < 0 then "-" + NatToString(-i) else NatToString(i)
  }

  function ParseNat(s: string): nat
    requires forall i :: 0 <= i < |s| ==> IsDigit(s[i])
  {
    if s == [] then 0 else ParseNat(s[..|s| - 1]) * 10 + DigitValue(s[|s| - 1])
  }

  /** An optional minus sign followed by at least one digit. */
  predicate IsNumeral(s: string) {
    if |s| >= 1 && s[0] == '-' then |s| >= 2 && forall i :: 1 <= i < |s| ==> IsDigit(s[i])
    else |s| >= 1 && forall i :: 0 <= i < |s| ==> IsDigit(s[i])
  }

  /** `int(s)` on what `str` produces. */
  function ParseInt(s: string): int
    requires IsNumeral(s)
  {
    if s[0] == '-' then -(ParseNat(s[1..]) as int) else ParseNat(s)
  }

  lemma {:induction false} ParseNatToString(n: nat)
    ensures (forall i :: 0 <= i < |NatToString(n)| ==> IsDigit(NatToString(n)[i])) && ParseNat(NatToString(n)) == n
    decreases n
  {
    NatToStringDigits(n);
    var s := NatToString(n);
    if n < 10 {
      assert s[..0] == [];
    } else {
      ParseNatToString(n / 10);
      assert IntToString(n / 10) == NatToString(n / 10);
      assert s[..|s| - 1] == NatToString(n / 10);
    }
  }

  /** Rendering an integer and reading it back gives the integer. */
  lemma ParseIntToString(i: int)
    ensures IsNumeral(IntToString(i)) && ParseInt(IntToString(i)) == i
  {
    var s := IntToString(i);
    if i < 0 {
      var t := NatToString(-i);
      NatToStringDigits(-i);
      ParseNatToString(-i);
      assert s == "-" + t && s[1..] == t;
      assert forall j :: 1 <= j < |s| ==> s[j] == t[j - 1];
    } else {
      NatToStringDigits(i);
      ParseNatToString(i);
      assert s == NatToString(i) && IsDigit(s[0]);
    }
  }

  /** Distinct integers render differently, so `str(id)` keys collide exactly when ids do. */
  lemma IntToStringInjective(a: int, b: int)
    ensures IntToString(a) == IntToString(b) <==> a == b
  {
    ParseIntToString(a);
    ParseIntToString(b);
  }
}
