/** The part of Go's `strconv` that the two wire formats use: decimal printing, and parsing with
    the syntax and range errors of 64-bit integers. */
module Decimal {
  import opened Wrappers

  const INT64_MAX: int := 0x7FFF_FFFF_FFFF_FFFF
  const INT64_MIN: int := -0x8000_0000_0000_0000
  const UINT64_MAX: int := 0xFFFF_FFFF_FFFF_FFFF

  predicate IsInt64(n: int) {
    INT64_MIN <= n <= INT64_MAX
  }

  /** Go's `int`, `int64` and `time.Duration`. */
  type Int64 = n: int | IsInt64(n)

  predicate IsDigit(c: char) {
    '0' <= c <= '9'
  }

  predicate AllDigits(s: string) {
    forall i :: 0 <= i < |s| ==> IsDigit(s[i])
  }

  function DigitChar(d: nat): char
    requires d < 10
  {
    '0' + d as char
  }

  function DigitValue(c: char): nat
    requires IsDigit(c)
  {
    c as int - '0' as int
  }

  function FormatNat(n: nat): (s: string)
    ensures s != "" && AllDigits(s)
  {
    if n < 10 then [DigitChar(n)] else FormatNat(n / 10) + [DigitChar(n % 10)]
  }

  /** `strconv.Itoa` and `strconv.FormatInt` in base 10. */
  function Itoa(n: int): string {
    if n < 0 then "-" + FormatNat(-n) else FormatNat(n)
  }

  function DigitsValue(s: string): nat
    requires AllDigits(s)
  {
    if s == "" then 0 else 10 * DigitsValue(s[..|s| - 1]) + DigitValue(s[|s| - 1])
  }

  /** `strconv.ParseUint(s, 10, 64)`; `None` is a syntax or a range error. */
  function ParseUint(s: string): Option<nat> {
    if s == "" || !AllDigits(s) || DigitsValue(s) > UINT64_MAX then None else Some(DigitsValue(s))
  }

  /** `strconv.Atoi`: one optional sign, then digits only, within the range of int64. */
  function Atoi(s: string): Option<int> {
    var signed := s != "" && (s[0] == '-' || s[0] == '+');
    var digits := if signed then s[1..] else s;
    if digits == "" || !AllDigits(digits) then None
    else
      var magnitude: int := DigitsValue(digits);
      var n := if s[0] == '-' then -magnitude else magnitude;
      if IsInt64(n) then Some(n) else None
  }

  lemma {:induction false} DigitsValueOfFormatNat(n: nat)
    ensures DigitsValue(FormatNat(n)) == n
  {
    var s := FormatNat(n);
    if n < 10 {
      assert s[..0] == "";
    } else {
      DigitsValueOfFormatNat(n / 10);
      assert s[..|s| - 1] == FormatNat(n / 10);
    }
  }

  /** Printing then parsing gives the number back. */
  lemma AtoiInvertsItoa(n: int)
    requires IsInt64(n)
    ensures Atoi(Itoa(n)) == Some(n)
  {
    if n < 0 {
      DigitsValueOfFormatNat(-n);
      assert Itoa(n)[1..] == FormatNat(-n);
    } else {
      DigitsValueOfFormatNat(n);
      assert IsDigit(Itoa(n)[0]);
    }
  }

  lemma ParseUintInvertsItoa(n: nat)
    requires n <= UINT64_MAX
    ensures ParseUint(Itoa(n)) == Some(n)
  {
    DigitsValueOfFormatNat(n);
  }

  lemma ItoaInjective(m: int, n: int)
    requires Itoa(m) == Itoa(n)
    ensures m == n
  {
    ItoaValue(m);
    ItoaValue(n);
  }

  /** The number a printed text stands for, read off the text. */
  ghost function TextValue(s: string): int {
    if s != "" && s[0] == '-' && AllDigits(s[1..]) then 0 - DigitsValue(s[1..]) as int
    else if AllDigits(s) then DigitsValue(s)
    else 0
  }

  lemma ItoaValue(n: int)
    ensures TextValue(Itoa(n)) == n
  {
    if n < 0 {
      assert Itoa(n)[1..] == FormatNat(-n);
      DigitsValueOfFormatNat(-n);
    } else {
      assert IsDigit(FormatNat(n)[0]);
      DigitsValueOfFormatNat(n);
    }
  }

  /** A printed number holds no separator of the wire formats. */
  lemma ItoaCharacters(n: int, c: char)
    requires c != '-' && !IsDigit(c)
    ensures c !in Itoa(n)
  {
  }

  function PowerOfTen(n: nat): nat {
    if n == 0 then 1 else 10 * PowerOfTen(n - 1)
  }

  lemma NextDigit(s: string, t: string, c: char)
    requires AllDigits(s + t) && IsDigit(c)
    ensures AllDigits(s + (t + [c])) && DigitsValue(s + (t + [c])) == 10 * DigitsValue(s + t) + DigitValue(c)
  {
    var whole := s + (t + [c]);
    assert whole[..|whole| - 1] == s + t && whole[|whole| - 1] == c;
  }

  lemma TenTimes(a: nat, p: nat)
    ensures 10 * (a * p) == a * (10 * p)
  {
  }

  /** Digits are read in base ten, the most significant one first. */
  lemma {:induction false} DigitsArePositional(s: string, t: string)
    requires AllDigits(s) && AllDigits(t)
    ensures AllDigits(s + t) && DigitsValue(s + t) == DigitsValue(s) * PowerOfTen(|t|) + DigitsValue(t)
  {
    if t == "" {
      assert s + t == s;
    } else {
      var front := t[..|t| - 1];
      DigitsArePositional(s, front);
      NextDigit(s, front, t[|t| - 1]);
      assert t == front + [t[|t| - 1]];
      TenTimes(DigitsValue(s), PowerOfTen(|front|));
    }
  }

  /** No number is printed with a leading zero but zero itself. */
  lemma {:induction false} NoLeadingZero(n: nat)
    ensures FormatNat(n)[0] == '0' <==> n == 0
    ensures n == 0 ==> FormatNat(n) == "0"
  {
    if n >= 10 {
      NoLeadingZero(n / 10);
      assert FormatNat(n)[0] == FormatNat(n / 10)[0];
    }
  }

  /** What `Atoi` accepts after a sign: one digit or more, of a value that an int64 holds. */
  lemma AtoiSigned(s: string)
    requires s != "" && (s[0] == '-' || s[0] == '+')
    ensures Atoi(s) == if |s| == 1 || !AllDigits(s[1..]) then None
                       else InRange(if s[0] == '-' then 0 - DigitsValue(s[1..]) as int else DigitsValue(s[1..]))
  {
  }

  /** And without one. */
  lemma AtoiUnsigned(s: string)
    requires s == "" || !(s[0] == '-' || s[0] == '+')
    ensures Atoi(s) == if s == "" || !AllDigits(s) then None else InRange(DigitsValue(s))
  {
  }

  function InRange(n: int): Option<int> {
    if -0x8000_0000_0000_0000 <= n <= 0x7FFF_FFFF_FFFF_FFFF then Some(n) else None
  }

  /** What `ParseUint` accepts: digits only, of a value that a uint64 holds. */
  lemma ParseUintAccepts(s: string, n: nat)
    ensures ParseUint(s) == Some(n) <==> s != "" && AllDigits(s) && DigitsValue(s) == n <= 0xFFFF_FFFF_FFFF_FFFF
  {
  }

  /** Some numbers as they are printed. */
  lemma PrintedNumbers()
    ensures Itoa(0) == "0" && Itoa(7) == "7" && Itoa(42) == "42" && Itoa(-105) == "-105"
  {
    assert FormatNat(4) == "4" && FormatNat(1) == "1";
    assert FormatNat(42) == FormatNat(4) + [DigitChar(2)];
    assert FormatNat(10) == FormatNat(1) + [DigitChar(0)];
    assert FormatNat(105) == FormatNat(10) + [DigitChar(5)];
  }
}
