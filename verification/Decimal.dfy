/** Decimal numbers as text: pkg/conv/conv.go and the strconv functions it rests on. */
module Decimal {
  import opened Common

  const INT64_MIN: int := -0x8000_0000_0000_0000
  const INT64_MAX: int := 0x7fff_ffff_ffff_ffff

  predicate IsDigit(c: char) { '0' <= c <= '9' }

  predicate AllDigits(s: string) { forall i :: 0 <= i < |s| ==> IsDigit(s[i]) }

  function Digit(c: char): int
    requires IsDigit(c)
  {
    c as int - '0' as int
  }

  function DigitsValue(s: string): (n: nat)
    requires AllDigits(s)
  {
    if s == "" then 0 else DigitsValue(s[..|s| - 1]) * 10 + Digit(s[|s| - 1])
  }

  predicate HasSign(s: string) { s != "" && (s[0] == '-' || s[0] == '+') }

  /** The text after an optional sign. */
  function Unsigned(s: string): string {
    if HasSign(s) then s[1..] else s
  }

  /** An optional sign and at least one digit. */
  predicate IsNumeral(s: string) { Unsigned(s) != "" && AllDigits(Unsigned(s)) }

  function NumeralValue(s: string): int
    requires IsNumeral(s)
  {
    var n: int := DigitsValue(Unsigned(s));
    if s[0] == '-' then -n else n
  }

  /** `strconv.ParseInt(s, 10, 64)`: the numerals within 64 bits, nothing else. */
  function ParseInt(s: string): Option<int> {
    if IsNumeral(s) && INT64_MIN <= NumeralValue(s) <= INT64_MAX then Some(NumeralValue(s)) else None
  }

  // ---------------------------------------------------------------- Btoi

  function Pow10(n: nat): nat {
    if n == 0 then 1 else 10 * Pow10(n - 1)
  }

  lemma {:induction false} DigitsBound(s: string)
    requires AllDigits(s)
    ensures DigitsValue(s) < Pow10(|s|)
  {
    if s != "" {
      DigitsBound(s[..|s| - 1]);
    }
  }

  lemma {:induction false} Pow10Monotone(a: nat, b: nat)
    requires a <= b
    ensures Pow10(a) <= Pow10(b)
    decreases b - a
  {
    if a < b {
      Pow10Monotone(a + 1, b);
    }
  }

  lemma {:induction false} NineDigitsFit(s: string)
    requires AllDigits(s) && |s| <= 9
    ensures DigitsValue(s) < 1_000_000_000
  {
    DigitsBound(s);
    Pow10Monotone(|s|, 9);
    assert Pow10(9) == 1_000_000_000 by {
      assert Pow10(3) == 1000;
      assert Pow10(6) == 1_000_000;
    }
  }

  lemma {:induction false} DigitsSnoc(s: string, c: char)
    requires AllDigits(s) && IsDigit(c)
    ensures AllDigits(s + [c]) && DigitsValue(s + [c]) == DigitsValue(s) * 10 + Digit(c)
  {
    assert (s + [c])[..|s|] == s;
  }

  /** The hand-written fast path for short input never disagrees with the library parser. */
  method Btoi(b: string) returns (r: Option<int>)
    ensures r == ParseInt(b)
  {
    if |b| != 0 && |b| < 10 {
      var neg, i := false, 0;
      if b[0] == '-' {
        neg, i := true, 1;
      } else if b[0] == '+' {
        i := 1;
      }
      if |b| != i {
        ghost var start := i;
        var n := 0;
        while i < |b| && '0' <= b[i] <= '9'
          invariant start <= i <= |b|
          invariant AllDigits(b[start..i]) && n == DigitsValue(b[start..i])
        {
          DigitsSnoc(b[start..i], b[i]);
          assert b[start..i + 1] == b[start..i] + [b[i]];
          n := (b[i] as int - '0' as int) + n * 10;
          i := i + 1;
        }
        if |b| == i {
          assert b[start..i] == Unsigned(b);
          NineDigitsFit(Unsigned(b));
          return Some(if neg then -n else n);
        }
        assert !IsDigit(Unsigned(b)[i - start]);
      }
    }
    r := ParseInt(b);
  }

  // ---------------------------------------------------------------- Itoa

  function DigitChar(d: nat): (c: char)
    requires d < 10
    ensures IsDigit(c) && Digit(c) == d
  {
    ('0' as int + d) as char
  }

  /** The decimal digits of `n` without leading zeros. */
  function Digits(n: nat): (s: string)
    ensures s != "" && AllDigits(s)
  {
    if n < 10 then [DigitChar(n)] else Digits(n / 10) + [DigitChar(n % 10)]
  }

  /** `strconv.Itoa`, and `%d`. */
  function Itoa(n: int): (s: string)
    ensures s != ""
  {
    if n < 0 then "-" + Digits(-n) else Digits(n)
  }

  lemma {:induction false} DigitsRoundTrip(n: nat)
    ensures DigitsValue(Digits(n)) == n
  {
    if n >= 10 {
      var s := Digits(n);
      assert s[..|s| - 1] == Digits(n / 10);
      DigitsRoundTrip(n / 10);
    }
  }

  lemma {:induction false} ItoaRoundTrip(n: int)
    ensures IsNumeral(Itoa(n)) && NumeralValue(Itoa(n)) == n
    ensures INT64_MIN <= n <= INT64_MAX ==> ParseInt(Itoa(n)) == Some(n)
  {
    hide Digits, DigitsValue;
    var m := if n < 0 then -n else n;
    DigitsRoundTrip(m);
    DigitsAreNumeral(Digits(m));
  }

  lemma {:induction false} DigitsAreNumeral(s: string)
    requires s != "" && AllDigits(s)
    ensures IsNumeral(s) && NumeralValue(s) == DigitsValue(s)
    ensures IsNumeral("-" + s) && NumeralValue("-" + s) == 0 - DigitsValue(s)
  {
    hide DigitsValue;
    assert IsDigit(s[0]) && !HasSign(s) && Unsigned(s) == s;
    assert ("-" + s)[1..] == s && Unsigned("-" + s) == s;
  }

  lemma {:induction false} ItoaInjective(a: int, b: int)
    requires Itoa(a) == Itoa(b)
    ensures a == b
  {
    ItoaRoundTrip(a);
    ItoaRoundTrip(b);
  }

  lemma ItoaDigits(n: nat)
    ensures AllDigits(Itoa(n))
  {
  }

  /** A number is printed with no zero in front. */
  lemma {:induction false} NoLeadingZero(n: nat)
    ensures Itoa(n)[0] == '0' ==> n == 0
    ensures n == 0 ==> Itoa(n) == "0"
  {
    if n >= 10 {
      assert Digits(n)[0] == Digits(n / 10)[0];
      NoLeadingZero(n / 10);
    }
  }

  lemma {:induction false} DigitsShort(n: nat, k: nat)
    requires k > 0 && n < Pow10(k)
    ensures |Digits(n)| <= k
  {
    if n >= 10 {
      DigitsShort(n / 10, k - 1);
    }
  }

  lemma {:induction false} TenToThe19th()
    ensures Pow10(19) == 10_000_000_000_000_000_000
  {
    assert Pow10(3) == 1000;
    assert Pow10(6) == 1_000_000;
    assert Pow10(9) == 1_000_000_000;
    assert Pow10(12) == 1_000_000_000_000;
    assert Pow10(15) == 1_000_000_000_000_000;
    assert Pow10(18) == 1_000_000_000_000_000_000;
  }
}
