/** Decimal digit strings and the numbers they denote. */
module Digits {
  predicate IsDigit(c: char) {
    '0' <= c <= '9'
  }

  predicate AllDigits(s: string) {
    forall i :: 0 <= i < |s| ==> IsDigit(s[i])
  }

  function DigitValue(c: char): nat
    requires IsDigit(c)
  {
    c as int - '0' as int
  }

  function DigitChar(n: nat): (c: char)
    requires n < 10
    ensures IsDigit(c) && DigitValue(c) == n
  {
    ('0' as int + n) as char
  }

  function Pow10(k: nat): (p: nat)
    ensures p > 0
  {
    if k == 0 then 1 else 10 * Pow10(k - 1)
  }

  /** `n` with `k` zeros appended, that is `n * 10^k`. */
  function ShiftLeft(n: nat, k: nat): nat {
    if k == 0 then n else 10 * ShiftLeft(n, k - 1)
  }

  function Quotient(n: nat, m: nat): nat
    requires m > 0
  {
    n / m
  }

  function Remainder(n: nat, m: nat): (r: nat)
    requires m > 0
    ensures r < m
  {
    n % m
  }

  /** The number a digit string denotes, most significant digit first. */
  function Value(s: string): nat
    requires AllDigits(s)
    decreases |s|
  {
    if s == "" then 0 else 10 * Value(s[..|s| - 1]) + DigitValue(s[|s| - 1])
  }

  /** `to_str_radix(10)`: no leading zeros. */
  function ToDigits(n: nat): (s: string)
    ensures s != "" && AllDigits(s)
  {
    if n < 10 then [DigitChar(n)] else ToDigits(n / 10) + [DigitChar(n % 10)]
  }

  /** The low `d` digits of `n`. */
  function LowDigits(n: nat, d: nat): (s: string)
    ensures |s| == d && AllDigits(s)
    decreases d
  {
    if d == 0 then "" else LowDigits(n / 10, d - 1) + [DigitChar(n % 10)]
  }

  /** What is left of `n` once its low `d` digits are dropped. */
  function HighPart(n: nat, d: nat): nat
    decreases d
  {
    if d == 0 then n else HighPart(n / 10, d - 1)
  }

  function Zeros(k: nat): (s: string)
    ensures |s| == k && AllDigits(s) && forall i :: 0 <= i < k ==> s[i] == '0'
  {
    if k == 0 then "" else Zeros(k - 1) + "0"
  }

  // ---------------------------------------------------------------- laws

  lemma {:induction false} Pow10Adds(a: nat, b: nat)
    ensures Pow10(a + b) == Pow10(a) * Pow10(b)
    decreases b
  {
    if b > 0 {
      Pow10Adds(a, b - 1);
      assert Pow10(a + b) == 10 * Pow10(a + (b - 1));
      assert 10 * (Pow10(a) * Pow10(b - 1)) == Pow10(a) * (10 * Pow10(b - 1));
    } else {
      assert Pow10(a) * 1 == Pow10(a);
    }
  }

  lemma {:induction false} ShiftIsProduct(n: nat, k: nat)
    ensures ShiftLeft(n, k) == n * Pow10(k)
  {
    if k > 0 {
      ShiftIsProduct(n, k - 1);
      assert 10 * (n * Pow10(k - 1)) == n * (10 * Pow10(k - 1));
    }
  }

  lemma TenTimes(m: nat, n: nat)
    ensures 10 * (m * n) == m * (10 * n)
  {
  }

  lemma {:induction false} ValueConcat(a: string, b: string)
    requires AllDigits(a) && AllDigits(b)
    ensures AllDigits(a + b)
    ensures Value(a + b) == Value(a) * Pow10(|b|) + Value(b)
    decreases |b|
  {
    if b == "" {
      assert a + b == a;
    } else {
      var front, s := b[..|b| - 1], a + b;
      assert s[..|s| - 1] == a + front && s[|s| - 1] == b[|b| - 1];
      ValueConcat(a, front);
      TenTimes(Value(a), Pow10(|front|));
    }
  }

  lemma {:induction false} ValueOfToDigits(n: nat)
    ensures Value(ToDigits(n)) == n
  {
    if n >= 10 {
      ValueOfToDigits(n / 10);
      assert ToDigits(n)[..|ToDigits(n)| - 1] == ToDigits(n / 10);
    } else {
      assert ToDigits(n)[..0] == "";
    }
  }

  lemma {:induction false} ValueOfZeros(k: nat)
    ensures Value(Zeros(k)) == 0
  {
    if k > 0 {
      ValueOfZeros(k - 1);
      assert Zeros(k)[..k - 1] == Zeros(k - 1);
    }
  }

  lemma {:induction false} ValueBound(s: string)
    requires AllDigits(s)
    ensures Value(s) < Pow10(|s|)
    decreases |s|
  {
    if s != "" {
      ValueBound(s[..|s| - 1]);
    }
  }

  lemma DivModSteps(n: nat, p: nat)
    requires p > 0
    ensures n % (10 * p) == 10 * ((n / 10) % p) + n % 10
    ensures n / (10 * p) == (n / 10) / p
  {
    var q, r := n / 10, n % 10;
    var a, b := q / p, q % p;
    assert n == 10 * q + r;
    assert q == a * p + b;
    assert n == a * (10 * p) + (10 * b + r) by {
      assert 10 * (a * p) == a * (10 * p);
    }
    assert 10 * b + r < 10 * p;
    DivModUnique(n, 10 * p, a, 10 * b + r);
  }

  lemma DivModUnique(n: nat, m: nat, q: nat, r: nat)
    requires m > 0 && r < m && n == q * m + r
    ensures n / m == q && n % m == r
  {
    var q', r' := n / m, n % m;
    assert (q - q') * m == r' - r;
    assert q == q' by {
      SmallMultiple(q - q', m);
    }
  }

  lemma SmallMultiple(k: int, m: int)
    requires -m < k * m < m
    ensures k == 0
  {
  }

  lemma MulMono(a: int, b: int, m: int)
    requires a <= b && m >= 0
    ensures a * m <= b * m
  {
  }

  /** A number has at most `d` digits exactly when it is below 10^d. */
  lemma {:induction false} DigitCount(n: nat, d: nat)
    requires d > 0
    ensures |ToDigits(n)| <= d <==> n < Pow10(d)
    decreases d
  {
    if n >= 10 {
      if d == 1 {
        assert Pow10(1) == 10 * Pow10(0);
      } else {
        DigitCount(n / 10, d - 1);
      }
    } else {
      assert Pow10(d) == 10 * Pow10(d - 1);
    }
  }

  lemma {:induction false} HighPartIsQuotient(n: nat, d: nat)
    ensures HighPart(n, d) == Quotient(n, Pow10(d))
    decreases d
  {
    if d > 0 {
      HighPartIsQuotient(n / 10, d - 1);
      DivModSteps(n, Pow10(d - 1));
    } else {
      DivModUnique(n, 1, n, 0);
    }
  }

  /** Reading the high digits and the low digits together gives the number back. */
  lemma {:induction false} SplitValue(n: nat, d: nat)
    ensures AllDigits(ToDigits(HighPart(n, d)) + LowDigits(n, d))
    ensures Value(ToDigits(HighPart(n, d)) + LowDigits(n, d)) == n
    decreases d
  {
    var s := ToDigits(HighPart(n, d)) + LowDigits(n, d);
    if d == 0 {
      assert s == ToDigits(n);
      ValueOfToDigits(n);
    } else {
      SplitValue(n / 10, d - 1);
      assert s[..|s| - 1] == ToDigits(HighPart(n / 10, d - 1)) + LowDigits(n / 10, d - 1);
      assert s[|s| - 1] == DigitChar(n % 10);
    }
  }

  /** Canonical digits are the high part's digits and the low digits. */
  lemma {:induction false} ToDigitsSplits(n: nat, d: nat)
    requires HighPart(n, d) > 0
    ensures ToDigits(n) == ToDigits(HighPart(n, d)) + LowDigits(n, d)
    decreases d
  {
    if d == 0 {
      assert ToDigits(n) + "" == ToDigits(n);
    } else {
      ToDigitsSplits(n / 10, d - 1);
      assert n >= 10 by {
        HighPartOfZero(d - 1);
      }
      assert ToDigits(n) == ToDigits(n / 10) + [DigitChar(n % 10)];
      assert ToDigits(HighPart(n, d)) + LowDigits(n, d)
          == (ToDigits(HighPart(n / 10, d - 1)) + LowDigits(n / 10, d - 1)) + [DigitChar(n % 10)];
    }
  }

  lemma {:induction false} HighPartOfZero(d: nat)
    ensures HighPart(0, d) == 0
  {
    if d > 0 {
      HighPartOfZero(d - 1);
    }
  }

  /** Without a high part the number is short. */
  lemma {:induction false} NoHighPart(n: nat, d: nat)
    ensures HighPart(n, d) == 0 <==> n < Pow10(d)
    decreases d
  {
    if d > 0 {
      NoHighPart(n / 10, d - 1);
    }
  }

  /** Left-padding canonical digits to width `d` gives the low digits. */
  lemma {:induction false} PaddedDigits(n: nat, d: nat)
    requires d > 0 && n < Pow10(d)
    ensures |ToDigits(n)| <= d
    ensures Zeros(d - |ToDigits(n)|) + ToDigits(n) == LowDigits(n, d)
    decreases d
  {
    DigitCount(n, d);
    if n < 10 {
      ZeroLowDigits(d - 1);
      assert n / 10 == 0;
    } else {
      PaddedDigits(n / 10, d - 1);
      assert ToDigits(n) == ToDigits(n / 10) + [DigitChar(n % 10)];
      assert Zeros(d - |ToDigits(n)|) + (ToDigits(n / 10) + [DigitChar(n % 10)])
          == (Zeros(d - |ToDigits(n)|) + ToDigits(n / 10)) + [DigitChar(n % 10)];
    }
  }

  lemma {:induction false} ZeroLowDigits(d: nat)
    ensures LowDigits(0, d) == Zeros(d)
  {
    if d > 0 {
      ZeroLowDigits(d - 1);
    }
  }

  /** A digit string denotes zero only if it is all zeros. */
  lemma {:induction false} ZeroValue(s: string)
    requires AllDigits(s)
    ensures Value(s) == 0 <==> forall i :: 0 <= i < |s| ==> s[i] == '0'
    decreases |s|
  {
    if s != "" {
      ZeroValue(s[..|s| - 1]);
      assert forall i :: 0 <= i < |s| - 1 ==> s[..|s| - 1][i] == s[i];
    }
  }
}
