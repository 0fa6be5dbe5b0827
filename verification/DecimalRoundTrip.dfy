/** Printers and parsers of decimal strings undo each other. */
module DecimalRoundTrip {
  import opened Prelude
  import opened Digits
  import opened Decimal
  import opened DecimalMeaning

  /** Printed digits with a point read back as themselves. */
  lemma PrintedReads(whole: string, frac: string)
    requires AllDigits(whole) && AllDigits(frac) && whole != ""
    ensures Reads(whole + "." + frac, whole, frac)
  {
  }

  lemma DigitsRead(s: string)
    requires AllDigits(s) && s != ""
    ensures Trim(s) == s && Reads(s, s, "")
  {
  }

  // ---------------------------------------------------------------- fixed-point printing

  lemma Padded(n: nat, d: nat)
    requires d > 0 && n < Pow10(d)
    ensures PadLeft(ToDigits(n), d) == LowDigits(n, d)
  {
  }

  /** Both printers show the high part's digits, a point and the low digits. */
  lemma FixedPointShows(n: nat, d: nat)
    requires d > 0
    ensures FixedPoint(n, d) == ToDigits(HighPart(n, d)) + "." + LowDigits(n, d)
  {
    HighPartIsQuotient(n, d);
    Padded(Remainder(n, Pow10(d)), d);
    LowDigitsOfRemainder(n, d);
  }

  lemma {:induction false} LowDigitsOfRemainder(n: nat, d: nat)
    ensures LowDigits(Remainder(n, Pow10(d)), d) == LowDigits(n, d)
    decreases d
  {
    if d > 0 {
      var p := Pow10(d - 1);
      var r := n % (10 * p);
      DivModSteps(n, p);
      assert r / 10 == (n / 10) % p && r % 10 == n % 10;
      LowDigitsOfRemainder(n / 10, d - 1);
    }
  }

  lemma InsertPointShows(n: nat, d: nat)
    requires d > 0
    ensures InsertPoint(ToDigits(n), d) == ToDigits(HighPart(n, d)) + "." + LowDigits(n, d)
  {
    NoHighPart(n, d);
    DigitCount(n, d);
    var s := ToDigits(n);
    if HighPart(n, d) == 0 {
      PaddedDigits(n, d);
      assert ToDigits(HighPart(n, d)) == "0";
      assert "0." == "0" + ".";
    } else {
      ToDigitsSplits(n, d);
      assert s[..|s| - d] == ToDigits(HighPart(n, d)) && s[|s| - d..] == LowDigits(n, d);
    }
  }

  /** What the fixed-point printer shows lifts back to the number. */
  lemma FixedPointLifts(n: nat, d: nat)
    requires d > 0
    ensures LiftDecimal(FixedPoint(n, d), d) == Ok(n)
  {
    var whole, frac := ToDigits(HighPart(n, d)), LowDigits(n, d);
    FixedPointShows(n, d);
    PrintedReads(whole, frac);
    SplitValue(n, d);
    LiftIsExact(FixedPoint(n, d), whole, frac, d);
  }

  /** A canonical integer lifts to itself at scale zero. */
  lemma DigitsLift(n: nat)
    ensures LiftDecimal(ToDigits(n), 0) == Ok(n)
  {
    DigitsRead(ToDigits(n));
    assert ToDigits(n) + "" == ToDigits(n);
    ValueOfToDigits(n);
    LiftIsExact(ToDigits(n), ToDigits(n), "", 0);
  }

  /** A printed integer denotes itself. */
  lemma WholeNumber(n: nat)
    ensures Denotes(ToDigits(n), 0, n as real)
  {
    DigitsRead(ToDigits(n));
    ValueOfToDigits(n);
    assert Meaning(ToDigits(n), "") == n as real;
  }

  lemma OneIsOne()
    ensures Denotes("1", 0, 1.0)
  {
    WholeNumber(1);
    assert ToDigits(1) == "1";
  }

  // ---------------------------------------------------------------- round trips

  /** What `scale_decimal` accepts at an admitted scale. */
  function RawInteger(raw: string): Option<nat> {
    ParseBigUint(if raw == "" then "0" else raw)
  }

  lemma ScaleShows(raw: string, d: nat, n: nat)
    requires RawInteger(raw) == Some(n) && 1 <= d <= MAX_DECIMAL_DIGITS
    ensures ScaleDecimal(raw, d) == Ok(FixedPoint(n, d))
  {
    FixedPointShows(n, d);
    InsertPointShows(n, d);
  }

  /**
   Scaling and lifting back gives the integer exactly when the scale is at least one: at scale zero
   the printer still writes a fractional digit, which the lift refuses.
   */
  lemma LiftUndoesScaleIffPositive(raw: string, d: nat, n: nat)
    requires RawInteger(raw) == Some(n) && d <= MAX_DECIMAL_DIGITS
    ensures ScaleDecimal(raw, d).Ok?
    ensures LiftDecimal(ScaleDecimal(raw, d).value, d) == Ok(n) <==> d >= 1
    ensures d == 0 ==> LiftDecimal(ScaleDecimal(raw, d).value, d) == Err(PrecisionExceeded)
  {
    if d >= 1 {
      ScaleShows(raw, d, n);
      FixedPointLifts(n, d);
    } else {
      var s := ToDigits(n) + "." + "0";
      assert ".0" == "." + "0";
      assert s == InsertPoint(ToDigits(n), 0);
      assert ScaleDecimal(raw, 0) == Ok(s);
      PrintedReads(ToDigits(n), "0");
      LiftIsExact(s, ToDigits(n), "0", 0);
    }
  }

  /** Scaling takes every integer at up to 38 places and nothing else; at zero places it shows `n.0`. */
  lemma ScaleIff(raw: string, d: nat)
    ensures ScaleDecimal(raw, d).Ok? <==> d <= MAX_DECIMAL_DIGITS && RawInteger(raw).Some?
    ensures ScaleDecimal(raw, d).Err? ==> ScaleDecimal(raw, d) == Err(MarketInconsistent)
    ensures RawInteger(raw).Some? && d == 0 ==>
              ScaleDecimal(raw, d) == Ok(ToDigits(RawInteger(raw).value) + ".0")
    ensures RawInteger("") == Some(0)
  {
    assert ToDigits(0) == "0";
    PrintedInteger(0);
  }

  lemma PrintedInteger(n: nat)
    ensures RawInteger(ToDigits(n)) == Some(n)
  {
    ParseDigits(ToDigits(n));
    ValueOfToDigits(n);
  }

  /** Lifting and scaling back is normalisation. */
  lemma ScaleUndoesLift(v: string, d: nat, n: nat)
    requires LiftDecimal(v, d) == Ok(n) && 1 <= d <= MAX_DECIMAL_DIGITS
    ensures ScaleDecimal(ToDigits(n), d) == NormalizeDecimal(v, d)
  {
    PrintedInteger(n);
    ScaleShows(ToDigits(n), d, n);
  }

  lemma NormalFormLifts(n: nat, d: nat)
    ensures LiftDecimal(if d == 0 then ToDigits(n) else FixedPoint(n, d), d) == Ok(n)
  {
    if d == 0 {
      DigitsLift(n);
    } else {
      FixedPointLifts(n, d);
    }
  }

  /** Normalising keeps the scaled value, so a second time changes nothing. */
  lemma NormalizeIsIdempotent(v: string, d: nat)
    requires NormalizeDecimal(v, d).Ok?
    ensures LiftDecimal(NormalizeDecimal(v, d).value, d) == LiftDecimal(v, d)
    ensures NormalizeDecimal(NormalizeDecimal(v, d).value, d) == NormalizeDecimal(v, d)
  {
    NormalFormLifts(LiftDecimal(v, d).value, d);
  }

  // ---------------------------------------------------------------- descaling

  /** Dropping the last `k` digits leaves the quotient, and what was dropped is the remainder. */
  lemma DropDigits(s: string, k: nat)
    requires AllDigits(s) && k <= |s|
    ensures Value(s[..|s| - k]) == Quotient(Value(s), Pow10(k))
    ensures Value(s[|s| - k..]) == Remainder(Value(s), Pow10(k))
  {
    var head, tail := s[..|s| - k], s[|s| - k..];
    assert s == head + tail;
    ValueConcat(head, tail);
    ValueBound(tail);
    DivModUnique(Value(s), Pow10(k), Value(head), Value(tail));
  }

  lemma ShortValue(s: string, k: nat)
    requires AllDigits(s) && |s| <= k
    ensures Quotient(Value(s), Pow10(k)) == 0 && Remainder(Value(s), Pow10(k)) == Value(s)
  {
    ValueBound(s);
    Pow10Grows(|s|, k);
    DivModUnique(Value(s), Pow10(k), 0, Value(s));
  }

  lemma {:induction false} Pow10Grows(a: nat, b: nat)
    requires a <= b
    ensures Pow10(a) <= Pow10(b)
    decreases b
  {
    if a < b {
      Pow10Grows(a, b - 1);
    }
  }

  /** `r` is what dividing the number `n` by 10^k must give: an error exactly when it does not divide. */
  ghost predicate DividesBy(r: Result<string>, n: nat, k: nat) {
    && (r.Ok? <==> Remainder(n, Pow10(k)) == 0)
    && (r.Ok? ==> AllDigits(r.value) && Value(r.value) == Quotient(n, Pow10(k)))
    && (r.Err? ==> r == Err(MarketInconsistent))
  }

  lemma DropNone(s: string)
    requires AllDigits(s)
    ensures DividesBy(DropLast(s, 0), Value(s), 0)
  {
    DivModUnique(Value(s), 1, Value(s), 0);
  }

  lemma DropAll(s: string, k: nat)
    requires AllDigits(s) && k > 0 && |s| <= k
    ensures DividesBy(DropLast(s, k), Value(s), k)
  {
    ShortValue(s, k);
    ZeroValue(s);
    assert "0"[..0] == "";
  }

  lemma DroppedZeros(s: string, k: nat)
    requires AllDigits(s) && 0 < k < |s|
    ensures DropLast(s, k).Ok? <==> Value(s[|s| - k..]) == 0
    ensures DropLast(s, k).Ok? ==> DropLast(s, k).value == s[..|s| - k]
  {
    var tail := s[|s| - k..];
    ZeroValue(tail);
    assert forall i :: 0 <= i < k ==> tail[i] == s[|s| - k + i];
    if i :| |s| - k <= i < |s| && s[i] != '0' {
      assert tail[i - (|s| - k)] != '0';
    }
  }

  lemma DropSome(s: string, k: nat)
    requires AllDigits(s) && 0 < k < |s|
    ensures DividesBy(DropLast(s, k), Value(s), k)
  {
    DropDigits(s, k);
    DroppedZeros(s, k);
  }

  /** `descale_pow10` succeeds exactly when 10^k divides the number, and then divides it. */
  lemma DescaleIsExactDivision(raw: string, k: nat)
    requires AllDigits(Trim(raw)) && Trim(raw) != ""
    ensures DividesBy(DescalePow10(raw, k), Value(Trim(raw)), k)
  {
    var s := Trim(raw);
    assert DescalePow10(raw, k) == DropLast(s, k);
    if k == 0 {
      DropNone(s);
    } else if |s| <= k {
      DropAll(s, k);
    } else {
      DropSome(s, k);
    }
  }

  /** It refuses what is no integer. */
  lemma DescaleRefuses(raw: string, k: nat)
    requires Trim(raw) == "" || !AllDigits(Trim(raw))
    ensures DescalePow10(raw, k) == Err(MarketInconsistent)
  {
  }

  lemma {:induction false} ShiftAdds(n: nat, a: nat, b: nat)
    ensures ShiftLeft(n, a + b) == ShiftLeft(ShiftLeft(n, a), b)
    decreases b
  {
    if b > 0 {
      ShiftAdds(n, a, b - 1);
    }
  }

  /** A shifted number prints with its zeros at the end. */
  lemma {:induction false} ShiftedDigits(n: nat, j: nat)
    requires n > 0
    ensures ToDigits(ShiftLeft(n, j)) == ToDigits(n) + Zeros(j)
    decreases j
  {
    if j == 0 {
      assert ToDigits(n) + "" == ToDigits(n);
    } else {
      ShiftedDigits(n, j - 1);
      var m := ShiftLeft(n, j - 1);
      ShiftedPositive(n, j - 1);
      assert (10 * m) / 10 == m && (10 * m) % 10 == 0;
      assert DigitChar(0) == '0';
      assert ToDigits(10 * m) == ToDigits(m) + "0";
      assert (ToDigits(n) + Zeros(j - 1)) + "0" == ToDigits(n) + (Zeros(j - 1) + "0");
    }
  }

  lemma {:induction false} ShiftedPositive(n: nat, j: nat)
    ensures n == 0 ==> ShiftLeft(n, j) == 0
    ensures n > 0 ==> ShiftLeft(n, j) > 0
  {
    if j > 0 {
      ShiftedPositive(n, j - 1);
    }
  }

  lemma DropUndoesShift(n: nat, j: nat)
    ensures DropLast(ToDigits(ShiftLeft(n, j)), j) == Ok(ToDigits(n))
  {
    var s := ToDigits(ShiftLeft(n, j));
    ShiftedPositive(n, j);
    if n == 0 {
      assert s == "0";
    } else {
      ShiftedDigits(n, j);
      assert s[..|s| - j] == ToDigits(n);
      assert forall i :: 0 <= i < j ==> s[|s| - j + i] == Zeros(j)[i];
    }
  }

  lemma DescaleUndoesShift(n: nat, m: nat, j: nat)
    requires m == ShiftLeft(n, j)
    ensures DescalePow10(ToDigits(m), j) == Ok(ToDigits(n))
  {
    DigitsRead(ToDigits(m));
    DropUndoesShift(n, j);
  }

  /** From `dp` places on, `v` lifts to the digits `n` with zeros appended. */
  ghost predicate Carries(v: string, n: nat, dp: nat) {
    forall target: nat :: dp <= target ==> LiftDecimal(v, target) == Ok(ShiftLeft(n, target - dp))
  }

  lemma LiftCarries(v: string, coarse: nat) returns (n: nat, dp: nat)
    requires LiftDecimal(v, coarse).Ok?
    ensures Carries(v, n, dp) && dp <= coarse
  {
    var whole, frac := ParsedIsWellFormed(v, coarse);
    n, dp := Value(whole + frac), |frac|;
    forall target: nat | dp <= target ensures LiftDecimal(v, target) == Ok(ShiftLeft(n, target - dp)) {
      LiftIsExact(v, whole, frac, target);
    }
  }

  /** A finer lift is a coarser one with zeros appended. */
  lemma LiftShifts(v: string, coarse: nat, fine: nat, n: nat)
    requires coarse <= fine && LiftDecimal(v, coarse) == Ok(n)
    ensures LiftDecimal(v, fine) == Ok(ShiftLeft(n, fine - coarse))
  {
    var digits, dp := LiftCarries(v, coarse);
    assert n == ShiftLeft(digits, coarse - dp);
    assert LiftDecimal(v, fine) == Ok(ShiftLeft(digits, fine - dp));
    ShiftAdds(digits, coarse - dp, fine - coarse);
  }

  /** The value of `v` at `k` places. */
  ghost predicate LiftsTo(v: string, k: nat, n: nat) {
    LiftDecimal(v, k) == Ok(n)
  }

  lemma FinerIsShifted(v: string, fine: nat, coarse: nat, n: nat, m: nat)
    requires coarse <= fine && LiftsTo(v, coarse, n) && LiftsTo(v, fine, m)
    ensures m == ShiftLeft(n, fine - coarse)
  {
    LiftShifts(v, coarse, fine, n);
  }

  /** Lifting finely and descaling is lifting coarsely, whenever the coarse scale can hold the value. */
  lemma DescaleUndoesLift(v: string, fine: nat, coarse: nat, n: nat, m: nat)
    requires coarse <= fine && LiftsTo(v, coarse, n) && LiftsTo(v, fine, m)
    ensures DescalePow10(ToDigits(m), fine - coarse) == Ok(ToDigits(n))
  {
    FinerIsShifted(v, fine, coarse, n, m);
    DescaleUndoesShift(n, m, fine - coarse);
  }
}
