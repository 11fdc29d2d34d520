/**
 Printed numbers, and reading them back as `strtoul` does with base 0.
 */
module Decimal {
  function DigitChar(d: nat): (c: char)
    requires d < 10
    ensures '0' <= c <= '9'
  {
    '0' + d as char
  }

  /** `%u`. */
  function Digits(n: nat): (s: string)
    ensures |s| > 0
  {
    if n < 10 then [DigitChar(n)] else Digits(n / 10) + [DigitChar(n % 10)]
  }

  /** The value of a digit, or 16 for any other character. */
  function DigitOf(c: char): (d: nat)
    ensures d < 10 <==> '0' <= c <= '9'
    ensures d <= 16
  {
    if '0' <= c <= '9' then c as nat - '0' as nat
    else if 'a' <= c <= 'f' then c as nat - 'a' as nat + 10
    else if 'A' <= c <= 'F' then c as nat - 'A' as nat + 10
    else 16
  }

  /** How many characters at the front are digits of the base. */
  function Run(s: string, base: nat): (n: nat)
    requires base <= 16
    ensures n <= |s|
  {
    if s == [] || DigitOf(s[0]) >= base then 0 else 1 + Run(s[1..], base)
  }

  /** The number that the first `n` digits stand for. */
  function Valued(s: string, n: nat, base: nat): (v: nat)
    requires n <= |s|
  {
    if n == 0 then 0 else Valued(s, n - 1, base) * base + DigitOf(s[n - 1])
  }

  /** The value and the length of a number without a sign: hexadecimal after `0x`, octal after `0`, else decimal. */
  function Unsigned(s: string): (r: (nat, nat))
    ensures r.1 <= |s|
  {
    if |s| >= 3 && s[0] == '0' && (s[1] == 'x' || s[1] == 'X') && DigitOf(s[2]) < 16 then
      (Valued(s[2..], Run(s[2..], 16), 16), 2 + Run(s[2..], 16))
    else
      var base := if s != [] && s[0] == '0' then 8 else 10;
      (Valued(s, Run(s, base), base), Run(s, base))
  }

  /** Printed digits followed by something that does not go on with a digit. */
  predicate Ends(rest: string) {
    rest == [] || (!('0' <= rest[0] <= '9') && rest[0] != 'x' && rest[0] != 'X')
  }

  lemma {:induction false} DigitsAreDigits(n: nat, i: nat)
    requires i < |Digits(n)|
    ensures '0' <= Digits(n)[i] <= '9'
  {
    if n >= 10 && i < |Digits(n)| - 1 {
      DigitsAreDigits(n / 10, i);
    }
  }

  /** Only zero is printed with a leading zero. */
  lemma {:induction false} LeadingDigit(n: nat)
    ensures Digits(n)[0] == '0' <==> n == 0
    ensures n == 0 ==> Digits(n) == "0"
  {
    if n >= 10 {
      LeadingDigit(n / 10);
    }
  }

  lemma {:induction false} DigitsValue(n: nat, rest: string)
    ensures Valued(Digits(n) + rest, |Digits(n)|, 10) == n
  {
    if n >= 10 {
      assert Digits(n) + rest == Digits(n / 10) + ([DigitChar(n % 10)] + rest);
      DigitsValue(n / 10, [DigitChar(n % 10)] + rest);
    }
  }

  lemma {:induction false} RunOfDigits(s: string, rest: string, base: nat)
    requires base <= 10
    requires (forall c :: c in s ==> DigitOf(c) < base) && (rest == [] || DigitOf(rest[0]) >= base)
    ensures Run(s + rest, base) == |s|
  {
    if s == [] {
      assert s + rest == rest;
    } else {
      assert (s + rest)[1..] == s[1..] + rest;
      RunOfDigits(s[1..], rest, base);
    }
  }

  lemma DigitsInBase(n: nat)
    ensures forall c :: c in Digits(n) ==> DigitOf(c) < 10
  {
    hide Digits;
    forall c | c in Digits(n) ensures DigitOf(c) < 10 {
      var i: nat :| i < |Digits(n)| && Digits(n)[i] == c;
      DigitsAreDigits(n, i);
    }
  }

  /** Reading undoes printing and stops where the digits stop. */
  lemma UnsignedOfDigits(n: nat, rest: string)
    requires Ends(rest)
    ensures Unsigned(Digits(n) + rest) == (n, |Digits(n)|)
  {
    hide Digits, Valued, Run;
    var s := Digits(n) + rest;
    LeadingDigit(n);
    DigitsInBase(n);
    DigitsValue(n, rest);
    if n == 0 {
      ZeroRun(rest);
      assert s == "0" + rest;
    } else {
      assert s[0] == Digits(n)[0];
      RunOfDigits(Digits(n), rest, 10);
    }
  }

  lemma ZeroRun(rest: string)
    requires Ends(rest)
    ensures Unsigned("0" + rest) == (0, 1)
  {
    var s := "0" + rest;
    assert s[1..] == rest;
    assert Run(rest, 8) == 0 && Run(s, 8) == 1 + Run(rest, 8);
    assert Valued(s, 1, 8) == Valued(s, 0, 8) * 8 + DigitOf('0');
  }

  /** Different numbers are printed differently, whatever follows them. */
  lemma DigitsPrefixFree(m: nat, n: nat, p: string, q: string)
    requires Ends(p) && Ends(q) && Digits(m) + p == Digits(n) + q
    ensures m == n && p == q
  {
    hide Digits, Unsigned;
    UnsignedOfDigits(m, p);
    UnsignedOfDigits(n, q);
    assert p == (Digits(m) + p)[|Digits(m)|..];
    assert q == (Digits(n) + q)[|Digits(n)|..];
  }
}
