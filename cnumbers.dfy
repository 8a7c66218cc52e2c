/** Decimal text and C `int` values: the `%d` conversion of `printf` and
    `atoi` (section 7.22.1.2 of ISO C11, which behaves as `strtol` with
    base 10: leading white space, an optional sign, then decimal digits). */
module CNumbers {

  const INT_MIN: int := -0x8000_0000
  const INT_MAX: int := 0x7FFF_FFFF

  /** The values a C `int` (32 bits here) can hold. */
  predicate IsInt(n: int) {
    INT_MIN <= n <= INT_MAX
  }

  predicate IsDigit(c: char) {
    '0' <= c <= '9'
  }

  predicate AllDigits(s: string) {
    forall i :: 0 <= i < |s| ==> IsDigit(s[i])
  }

  /** `isspace` in the "C" locale. */
  predicate IsSpace(c: char) {
    c == ' ' || c == '\t' || c == '\n' || c == '\U{B}' || c == '\U{C}' || c == '\r'
  }

  function DigitChar(d: nat): (c: char)
    requires d < 10
    ensures IsDigit(c)
  {
    ('0' as int + d) as char
  }

  function DigitValue(c: char): (d: nat)
    requires IsDigit(c)
    ensures d < 10 && DigitChar(d) == c
  {
    c as int - '0' as int
  }

  /** The decimal digits of `n`, most significant first, without leading zeros. */
  function NatDecimal(n: nat): (r: string)
    ensures |r| >= 1 && AllDigits(r)
    ensures r[0] == '0' ==> n == 0
  {
    if n < 10 then [DigitChar(n)] else NatDecimal(n / 10) + [DigitChar(n % 10)]
  }

  /** The text `%d` produces for `n`. */
  function Decimal(n: int): (r: string)
    ensures |r| >= 1
    ensures n < 0 <==> r[0] == '-'
    ensures forall i :: 0 < i < |r| ==> IsDigit(r[i])
  {
    if n < 0 then "-" + NatDecimal(-n) else NatDecimal(n)
  }

  /** The number a string of decimal digits denotes. */
  function DigitsValue(ds: string): nat
    requires AllDigits(ds)
  {
    if ds == [] then 0 else 10 * DigitsValue(ds[..|ds| - 1]) + DigitValue(ds[|ds| - 1])
  }

  /** The longest run of digits at the start of `s`. */
  function LeadingDigits(s: string): (r: string)
    ensures r <= s && AllDigits(r)
    ensures |r| < |s| ==> !IsDigit(s[|r|])
  {
    if s == [] || !IsDigit(s[0]) then [] else [s[0]] + LeadingDigits(s[1..])
  }

  /** `s` without its leading white space. */
  function SkipSpace(s: string): (r: string)
    ensures |r| <= |s| && r == s[|s| - |r|..]
    ensures forall i :: 0 <= i < |s| - |r| ==> IsSpace(s[i])
    ensures r != [] ==> !IsSpace(r[0])
  {
    if s != [] && IsSpace(s[0]) then SkipSpace(s[1..]) else s
  }

  /** `atoi(s)`, on unbounded integers: the value is a C `int` only when it
      lies in IsInt, and otherwise C leaves the behaviour undefined. */
  function Atoi(s: string): (r: int)
    ensures r < 0 ==> SkipSpace(s) != [] && SkipSpace(s)[0] == '-'
  {
    var t := SkipSpace(s);
    if t != [] && t[0] == '-' then -(DigitsValue(LeadingDigits(t[1..])) as int)
    else if t != [] && t[0] == '+' then DigitsValue(LeadingDigits(t[1..]))
    else DigitsValue(LeadingDigits(t))
  }

  /** Text with no digit at all converts to 0. */
  lemma AtoiNoDigits(s: string)
    requires forall i :: 0 <= i < |s| ==> !IsDigit(s[i])
    ensures Atoi(s) == 0
  {
    var t := SkipSpace(s);
    var u := if t != [] && (t[0] == '-' || t[0] == '+') then t[1..] else t;
    if u != [] {
      assert u[0] == s[|s| - |u|];
    }
    assert LeadingDigits(u) == [];
  }

  lemma {:induction false} DigitsValueOfDecimal(n: nat)
    ensures DigitsValue(NatDecimal(n)) == n
  {
    if n >= 10 {
      var ds := NatDecimal(n);
      assert ds[..|ds| - 1] == NatDecimal(n / 10);
      DigitsValueOfDecimal(n / 10);
    }
  }

  lemma {:induction false} LeadingDigitsAppend(ds: string, rest: string)
    requires AllDigits(ds)
    requires rest == [] || !IsDigit(rest[0])
    ensures LeadingDigits(ds + rest) == ds
  {
    if ds != [] {
      assert (ds + rest)[1..] == ds[1..] + rest;
      LeadingDigitsAppend(ds[1..], rest);
    } else {
      assert ds + rest == rest;
    }
  }

  /** `atoi` of digits followed by a non-digit is the value of the digits. */
  lemma AtoiDigits(ds: string, rest: string)
    requires ds != [] && AllDigits(ds)
    requires rest == [] || !IsDigit(rest[0])
    ensures Atoi(ds + rest) == DigitsValue(ds)
  {
    assert (ds + rest)[0] == ds[0];
    assert SkipSpace(ds + rest) == ds + rest;
    LeadingDigitsAppend(ds, rest);
  }

  /** `atoi` of a minus sign, digits and a non-digit is minus their value. */
  lemma AtoiNegativeDigits(ds: string, rest: string)
    requires AllDigits(ds)
    requires rest == [] || !IsDigit(rest[0])
    ensures Atoi("-" + ds + rest) == -(DigitsValue(ds) as int)
  {
    var text := "-" + ds + rest;
    assert SkipSpace(text) == text;
    assert text[1..] == ds + rest;
    LeadingDigitsAppend(ds, rest);
  }

  /** `atoi` reads back what `%d` wrote, whatever non-digit text follows. */
  lemma AtoiDecimal(n: int, rest: string)
    requires rest == [] || !IsDigit(rest[0])
    ensures Atoi(Decimal(n) + rest) == n
  {
    if n < 0 {
      DigitsValueOfDecimal(-n);
      AtoiNegativeDigits(NatDecimal(-n), rest);
    } else {
      DigitsValueOfDecimal(n);
      AtoiDigits(NatDecimal(n), rest);
    }
  }

  lemma {:induction false} NatDecimalLength(n: nat, k: nat, bound: nat)
    requires k >= 1 && n < bound && bound == Pow10(k)
    ensures |NatDecimal(n)| <= k
  {
    if n >= 10 {
      assert k >= 2;
      NatDecimalLength(n / 10, k - 1, Pow10(k - 1));
    }
  }

  function Pow10(k: nat): nat {
    if k == 0 then 1 else 10 * Pow10(k - 1)
  }

  /** `%d` of a C `int` takes at most 11 characters ("-2147483648"). */
  lemma DecimalOfIntLength(n: int)
    requires IsInt(n)
    ensures |Decimal(n)| <= 11
  {
    assert Pow10(10) == 10_000_000_000;
    NatDecimalLength(if n < 0 then -n else n, 10, Pow10(10));
  }
}
