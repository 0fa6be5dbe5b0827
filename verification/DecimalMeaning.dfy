/**
 What decimal strings mean. A well-formed string reads as whole digits and fractional digits
 and denotes an exact rational; the parsers, the scaled integers and the checks agree with it.
 */
module DecimalMeaning {
  import opened Prelude
  import opened Digits
  import opened Decimal

  /** `text` is, up to surrounding white space, `whole`, `whole.` or `whole.frac`, with a digit somewhere. */
  ghost predicate Reads(text: string, whole: string, frac: string) {
    && AllDigits(whole) && AllDigits(frac) && whole + frac != ""
    && (Trim(text) == whole + "." + frac || (frac == "" && Trim(text) == whole))
  }

  /** The rational the two digit strings denote. */
  ghost function Meaning(whole: string, frac: string): real
    requires AllDigits(whole) && AllDigits(frac)
  {
    Mixed(Value(whole), Value(frac), Pow10(|frac|))
  }

  /** The mixed number `w f/p`. */
  ghost function Mixed(w: nat, f: nat, p: nat): real
    requires p > 0
  {
    w as real + f as real / p as real
  }

  // ---------------------------------------------------------------- white space

  predicate AllSpace(s: string) {
    forall i :: 0 <= i < |s| ==> IsSpace(s[i])
  }

  lemma SpaceJoins(a: string, b: string)
    requires AllSpace(a) && AllSpace(b)
    ensures AllSpace(a + b)
  {
    forall i | 0 <= i < |a + b| ensures IsSpace((a + b)[i]) {
      assert (a + b)[i] == if i < |a| then a[i] else b[i - |a|];
    }
  }

  lemma {:induction false} SpaceTrimsAway(s: string)
    requires AllSpace(s)
    ensures TrimStart(s) == ""
    decreases |s|
  {
    if s != "" {
      SpaceTrimsAway(s[1..]);
    }
  }

  lemma {:induction false} TrimStartStrips(s: string) returns (k: nat)
    ensures k <= |s| && TrimStart(s) == s[k..] && AllSpace(s[..k])
    ensures TrimStart(s) != "" ==> !IsSpace(TrimStart(s)[0])
    decreases |s|
  {
    k := 0;
    if s != "" && IsSpace(s[0]) {
      var rest := s[1..];
      var j := TrimStartStrips(rest);
      k := j + 1;
      assert rest[j..] == s[k..];
      SpaceJoins([s[0]], rest[..j]);
      assert s[..k] == [s[0]] + rest[..j];
    }
  }

  lemma {:induction false} TrimEndStrips(s: string) returns (k: nat)
    ensures k <= |s| && TrimEnd(s) == s[..k] && AllSpace(s[k..])
    ensures TrimEnd(s) != "" ==> !IsSpace(TrimEnd(s)[|TrimEnd(s)| - 1])
    decreases |s|
  {
    k := |s|;
    if s != "" && IsSpace(s[|s| - 1]) {
      var rest := s[..|s| - 1];
      k := TrimEndStrips(rest);
      assert rest[..k] == s[..k];
      SpaceJoins(rest[k..], [s[|s| - 1]]);
      assert s[k..] == rest[k..] + [s[|s| - 1]];
    }
  }

  /** Trimming takes white space off both ends, all of it and nothing else. */
  lemma TrimStrips(s: string) returns (before: string, after: string)
    ensures s == before + Trim(s) + after && AllSpace(before) && AllSpace(after)
    ensures Trim(s) != "" ==> !IsSpace(Trim(s)[0]) && !IsSpace(Trim(s)[|Trim(s)| - 1])
  {
    var i := TrimStartStrips(s);
    var rest := TrimStart(s);
    var j := TrimEndStrips(rest);
    before, after := s[..i], rest[j..];
    assert s == s[..i] + s[i..] && rest == rest[..j] + rest[j..];
  }

  // ---------------------------------------------------------------- the parsers

  lemma {:induction false} DropNothing(s: string)
    requires AllDigits(s)
    ensures DropUnderscores(s) == s
    decreases |s|
  {
    if s != "" {
      DropNothing(s[..|s| - 1]);
      assert s == s[..|s| - 1] + [s[|s| - 1]];
    }
  }

  lemma ParseDigits(s: string)
    requires AllDigits(s) && s != ""
    ensures ParseBigUint(s) == Some(Value(s))
  {
    DropNothing(s);
    assert IsDigit(s[0]);
  }

  lemma SplitReads(text: string, whole: string, frac: string)
    requires Reads(text, whole, frac)
    ensures SplitPoint(Trim(text)) == (whole, frac)
  {
    var s := Trim(text);
    var i := IndexOf(s, '.');
    if s == whole + "." + frac {
      assert s[|whole|] == '.';
      assert forall j :: 0 <= j < |whole| ==> s[j] == whole[j] && IsDigit(s[j]);
      assert i == |whole|;
      assert s[..i] == whole && s[i + 1..] == frac;
    } else {
      assert forall j :: 0 <= j < |s| ==> IsDigit(s[j]);
    }
  }

  /** A well-formed string parses to its digits and its precision; too much precision is the only error. */
  lemma ParseReads(text: string, whole: string, frac: string, max: nat)
    requires Reads(text, whole, frac)
    ensures AllDigits(whole + frac)
    ensures ParsePositiveDecimal(text, max) ==
            if |frac| > max then Err(PrecisionExceeded) else Ok((Value(whole + frac), |frac|))
    ensures ParseDecimalString(text) == Ok((Value(whole + frac), |frac|))
  {
    SplitReads(text, whole, frac);
    ParseDigits(whole + frac);
    var s := Trim(text);
    forall i | 0 <= i < |s| ensures IsDigit(s[i]) || s[i] == '.' {
      if s == whole + "." + frac && i > |whole| {
        assert s[i] == frac[i - |whole| - 1];
      }
    }
  }

  /** Whatever parses is well-formed. */
  lemma ParsedIsWellFormed(text: string, max: nat) returns (whole: string, frac: string)
    requires ParsePositiveDecimal(text, max).Ok?
    ensures Reads(text, whole, frac) && |frac| <= max
  {
    var s := Trim(text);
    whole, frac := SplitPoint(s).0, SplitPoint(s).1;
    ParsedSplit(s, whole, frac);
  }

  lemma ParsedSplit(s: string, whole: string, frac: string)
    requires NumeralChars(s) && (whole, frac) == SplitPoint(s) && ParseBigUint(whole + frac).Some?
    ensures AllDigits(whole) && AllDigits(frac)
    ensures s == whole + "." + frac || (frac == "" && s == whole)
  {
    var i := IndexOf(s, '.');
    assert forall j :: 0 <= j < |whole| ==> whole[j] == s[j];
    if i < |s| {
      assert forall j :: 0 <= j < |frac| ==> frac[j] == s[i + 1 + j];
      FracDigits(whole, frac);
    }
  }

  /** A second point makes the digit string unreadable. */
  lemma FracDigits(whole: string, frac: string)
    requires AllDigits(whole) && ParseBigUint(whole + frac).Some?
    requires forall j :: 0 <= j < |frac| ==> IsDigit(frac[j]) || frac[j] == '.'
    ensures AllDigits(frac)
  {
    var s := whole + frac;
    assert s[0] != '+';
    KeepsOthers(s);
    forall j | 0 <= j < |frac| ensures IsDigit(frac[j]) {
      assert s[|whole| + j] == frac[j];
      assert frac[j] in DropUnderscores(s);
    }
  }

  lemma {:induction false} KeepsOthers(s: string)
    ensures forall i :: 0 <= i < |s| && s[i] != '_' ==> s[i] in DropUnderscores(s)
    decreases |s|
  {
    if s != "" {
      KeepsOthers(s[..|s| - 1]);
      assert forall i :: 0 <= i < |s| - 1 ==> s[..|s| - 1][i] == s[i];
    }
  }

  lemma {:induction false} DroppedAreKept(s: string)
    ensures forall c :: c in DropUnderscores(s) ==> c in s && c != '_'
    decreases |s|
  {
    if s != "" {
      DroppedAreKept(s[..|s| - 1]);
    }
  }

  /** What the big-integer parser reads: an optional plus sign, a digit, then digits and underscores. */
  lemma BigUintIff(text: string)
    ensures var s := if |text| > 0 && text[0] == '+' && !(|text| > 1 && text[1] == '+') then text[1..] else text;
            && (ParseBigUint(text).Some? <==>
                  s != "" && IsDigit(s[0]) && forall i :: 0 <= i < |s| ==> IsDigit(s[i]) || s[i] == '_')
            && (s != "" && AllDigits(s) ==> ParseBigUint(text) == Some(Value(s)))
  {
    var s := if |text| > 0 && text[0] == '+' && !(|text| > 1 && text[1] == '+') then text[1..] else text;
    var digits := DropUnderscores(s);
    DroppedAreKept(s);
    KeepsOthers(s);
    assert AllDigits(digits) <==> forall i :: 0 <= i < |s| ==> IsDigit(s[i]) || s[i] == '_' by {
      forall i | 0 <= i < |digits| && (forall j :: 0 <= j < |s| ==> IsDigit(s[j]) || s[j] == '_')
        ensures IsDigit(digits[i])
      {
        assert digits[i] in digits;
      }
    }
    if AllDigits(s) {
      DropNothing(s);
    }
  }

  /** An empty value is missing, and a character that is no digit and no point is invalid. */
  lemma ParseRefuses(text: string, max: nat)
    ensures ParsePositiveDecimal(text, max) == Err(MissingParameter) <==> AllSpace(text)
    ensures !AllSpace(text) && !NumeralChars(Trim(text)) ==> ParsePositiveDecimal(text, max) == Err(InvalidParameter)
    ensures !(exists whole, frac :: Reads(text, whole, frac)) ==> ParsePositiveDecimal(text, max).Err?
  {
    var before, after := TrimStrips(text);
    if AllSpace(text) {
      SpaceTrimsAway(text);
    } else if Trim(text) == "" {
      SpaceJoins(before, after);
      assert false;
    }
    if ParsePositiveDecimal(text, max).Ok? {
      var _, _ := ParsedIsWellFormed(text, max);
    }
  }

  lemma SplitDigits(whole: string, frac: string)
    requires AllDigits(whole + frac)
    ensures AllDigits(whole) && AllDigits(frac)
  {
    assert forall i :: 0 <= i < |whole| ==> (whole + frac)[i] == whole[i];
    assert forall i :: 0 <= i < |frac| ==> (whole + frac)[|whole| + i] == frac[i];
  }

  lemma SplitJoins(s: string)
    ensures var (whole, frac) := SplitPoint(s); s == whole + "." + frac || (frac == "" && s == whole)
  {
    var i := IndexOf(s, '.');
    assert i < |s| ==> s == s[..i] + "." + s[i + 1..];
  }

  /** The read-model parser takes exactly the well-formed strings, of any precision. */
  lemma ReadModelParsesIff(text: string)
    ensures ParseDecimalString(text).Ok? <==> exists whole, frac :: Reads(text, whole, frac)
    ensures ParseDecimalString(text).Err? ==> ParseDecimalString(text) == Err(MarketInconsistent)
  {
    if ParseDecimalString(text).Ok? {
      var (whole, frac) := SplitPoint(Trim(text));
      SplitDigits(whole, frac);
      SplitJoins(Trim(text));
      assert Reads(text, whole, frac);
    }
    if whole, frac :| Reads(text, whole, frac) {
      ParseReads(text, whole, frac, 0);
    }
  }

  // ---------------------------------------------------------------- scaled integers

  /** `n` is the rational `x` at `k` decimal places, exactly. */
  ghost predicate Scaled(n: nat, x: real, k: nat) {
    ScaledBy(n, x, Pow10(k))
  }

  ghost predicate ScaledBy(n: nat, x: real, p: nat) {
    n as real == x * p as real
  }

  lemma ScaledByProduct(m: nat, x: real, a: nat, n: nat, y: real, b: nat)
    requires ScaledBy(m, x, a) && ScaledBy(n, y, b)
    ensures ScaledBy(m * n, x * y, a * b)
  {
  }

  lemma ScaledProduct(m: nat, x: real, j: nat, n: nat, y: real, k: nat)
    requires Scaled(m, x, j) && Scaled(n, y, k)
    ensures Scaled(m * n, x * y, j + k)
  {
    Pow10Adds(j, k);
    ScaledByProduct(m, x, Pow10(j), n, y, Pow10(k));
  }

  lemma ScaleUp(n: nat, x: real, k: nat, j: nat)
    requires Scaled(n, x, k)
    ensures Scaled(ShiftLeft(n, j), x, k + j)
  {
    ShiftIsProduct(n, j);
    Pow10Adds(k, j);
    ScaledByProduct(n, x, Pow10(k), Pow10(j), 1.0, Pow10(j));
    assert x * 1.0 == x;
  }

  lemma CancelScale(x: real, y: real, p: real)
    requires p > 0.0
    ensures x * p < y * p <==> x < y
    ensures x * p == y * p <==> x == y
  {
  }

  lemma ScaledByOrder(m: nat, x: real, n: nat, y: real, p: nat)
    requires ScaledBy(m, x, p) && ScaledBy(n, y, p) && p > 0
    ensures m < n <==> x < y
    ensures m == n <==> x == y
  {
    CancelScale(x, y, p as real);
  }

  lemma ScaledOrder(m: nat, x: real, n: nat, y: real, k: nat)
    requires Scaled(m, x, k) && Scaled(n, y, k)
    ensures m < n <==> x < y
    ensures m == n <==> x == y
  {
    ScaledByOrder(m, x, n, y, Pow10(k));
  }

  lemma MixedNumber(v: nat, w: nat, f: nat, p: nat)
    requires p > 0 && v == w * p + f
    ensures ScaledBy(v, Mixed(w, f, p), p)
  {
  }

  /** The parsed digits are the meaning at the string's own precision. */
  lemma DigitsAreScaled(whole: string, frac: string)
    requires AllDigits(whole) && AllDigits(frac)
    ensures AllDigits(whole + frac)
    ensures Scaled(Value(whole + frac), Meaning(whole, frac), |frac|)
  {
    ValueConcat(whole, frac);
    MixedNumber(Value(whole + frac), Value(whole), Value(frac), Pow10(|frac|));
  }

  /** Lifting succeeds exactly when the target can hold the fraction, and gives the meaning at that scale. */
  lemma LiftIsExact(text: string, whole: string, frac: string, target: nat)
    requires Reads(text, whole, frac)
    ensures LiftDecimal(text, target).Ok? <==> |frac| <= target
    ensures |frac| <= target ==>
              && LiftDecimal(text, target).value == ShiftLeft(Value(whole + frac), target - |frac|)
              && Scaled(LiftDecimal(text, target).value, Meaning(whole, frac), target)
    ensures |frac| > target ==> LiftDecimal(text, target) == Err(PrecisionExceeded)
  {
    assert LiftDecimal(text, target) ==
           if |frac| > target then Err(PrecisionExceeded)
           else Ok(ShiftLeft(Value(whole + frac), target - |frac|)) by {
      ParseReads(text, whole, frac, target);
    }
    if |frac| <= target {
      DigitsAreScaled(whole, frac);
      ScaleUp(Value(whole + frac), Meaning(whole, frac), |frac|, target - |frac|);
    }
  }

  // ---------------------------------------------------------------- the checks

  ghost function Times(k: nat, y: real): real {
    k as real * y
  }

  ghost predicate IsMultiple(x: real, y: real) {
    exists k: nat :: x == Times(k, y)
  }

  lemma DividesIff(v: nat, s: nat)
    requires s > 0
    ensures v % s == 0 <==> exists k: nat :: v == k * s
  {
    if v % s == 0 {
      assert v == (v / s) * s;
    }
    if k: nat :| v == k * s {
      DivModUnique(v, s, k, 0);
    }
  }

  lemma SameMultiple(v: nat, x: real, s: nat, y: real, p: nat, n: nat)
    requires ScaledBy(v, x, p) && ScaledBy(s, y, p) && p > 0
    ensures v == n * s <==> x == Times(n, y)
  {
  }

  lemma ScaledMultiple(v: nat, x: real, s: nat, y: real, k: nat)
    requires Scaled(v, x, k) && Scaled(s, y, k) && s > 0
    ensures v % s == 0 <==> IsMultiple(x, y)
  {
    DividesIff(v, s);
    if n: nat :| v == n * s {
      SameMultiple(v, x, s, y, Pow10(k), n);
    }
    if n: nat :| x == Times(n, y) {
      SameMultiple(v, x, s, y, Pow10(k), n);
    }
  }

  /** `is_multiple_of` decides whether the value is a natural multiple of the step; a zero step is an error. */
  lemma MultipleCheckIsExact(value: string, vw: string, vf: string, step: string, sw: string, sf: string)
    requires Reads(value, vw, vf) && Reads(step, sw, sf)
    requires |vf| <= MAX_DECIMAL_DIGITS && |sf| <= MAX_DECIMAL_DIGITS
    ensures Meaning(sw, sf) == 0.0 ==> IsMultipleOf(value, step) == Err(InvalidParameter)
    ensures Meaning(sw, sf) != 0.0 ==>
              && IsMultipleOf(value, step).Ok?
              && (IsMultipleOf(value, step).value <==> IsMultiple(Meaning(vw, vf), Meaning(sw, sf)))
  {
    ParseReads(value, vw, vf, MAX_DECIMAL_DIGITS);
    ParseReads(step, sw, sf, MAX_DECIMAL_DIGITS);
    var scale := Max(|vf|, |sf|);
    LiftIsExact(value, vw, vf, scale);
    LiftIsExact(step, sw, sf, scale);
    var v, s := LiftDecimal(value, scale).value, LiftDecimal(step, scale).value;
    ScaledOrder(s, Meaning(sw, sf), 0, 0.0, scale);
    if s > 0 {
      ScaledMultiple(v, Meaning(vw, vf), s, Meaning(sw, sf), scale);
    }
  }

  ghost predicate NotionalAtLeast(price: real, quantity: real, minimum: real) {
    price * quantity >= minimum
  }

  lemma ProductCheck(p: nat, x: real, pdp: nat, q: nat, y: real, qdp: nat, m: nat, z: real, common: nat)
    requires Scaled(p, x, pdp) && Scaled(q, y, qdp) && Scaled(m, z, common) && pdp + qdp <= common
    ensures ProductAtLeast(p, q, common - (pdp + qdp), m) <==> NotionalAtLeast(x, y, z)
  {
    ScaledProduct(p, x, pdp, q, y, qdp);
    ScaleUp(p * q, x * y, pdp + qdp, common - (pdp + qdp));
    ScaledOrder(ShiftLeft(p * q, common - (pdp + qdp)), x * y, m, z, common);
  }

  /** From `dp` places on, `text` lifts to exactly `x`. */
  ghost predicate LiftsFrom(text: string, dp: nat, x: real) {
    forall target: nat :: dp <= target ==>
      LiftDecimal(text, target).Ok? && Scaled(LiftDecimal(text, target).value, x, target)
  }

  lemma WellFormedLifts(text: string, whole: string, frac: string)
    requires Reads(text, whole, frac)
    ensures LiftsFrom(text, |frac|, Meaning(whole, frac))
  {
    forall target: nat | |frac| <= target
      ensures LiftDecimal(text, target).Ok?
      ensures Scaled(LiftDecimal(text, target).value, Meaning(whole, frac), target)
    {
      LiftIsExact(text, whole, frac, target);
    }
  }

  lemma AtScalesUnfolds(
    price: string, pdp: nat, p: nat, quantity: string, qdp: nat, q: nat, minimum: string, mdp: nat, m: nat)
    requires LiftDecimal(price, pdp) == Ok(p) && LiftDecimal(quantity, qdp) == Ok(q)
    requires LiftDecimal(minimum, Max(pdp + qdp, mdp)) == Ok(m)
    ensures NotionalAtScales(price, pdp, quantity, qdp, minimum, mdp)
            == Ok(ProductAtLeast(p, q, Max(pdp + qdp, mdp) - (pdp + qdp), m))
  {
  }

  lemma LiftFrom(text: string, dp: nat, x: real, target: nat) returns (n: nat)
    requires LiftsFrom(text, dp, x) && dp <= target
    ensures LiftDecimal(text, target) == Ok(n) && Scaled(n, x, target)
  {
    n := LiftDecimal(text, target).value;
  }

  lemma LiftedNotional(
    price: string, pdp: nat, x: real, quantity: string, qdp: nat, y: real, minimum: string, mdp: nat, z: real)
    requires LiftsFrom(price, pdp, x) && LiftsFrom(quantity, qdp, y) && LiftsFrom(minimum, mdp, z)
    ensures NotionalAtScales(price, pdp, quantity, qdp, minimum, mdp) == Ok(NotionalAtLeast(x, y, z))
  {
    var common := Max(pdp + qdp, mdp);
    var p := LiftFrom(price, pdp, x, pdp);
    var q := LiftFrom(quantity, qdp, y, qdp);
    var m := LiftFrom(minimum, mdp, z, common);
    AtScalesUnfolds(price, pdp, p, quantity, qdp, q, minimum, mdp, m);
    ProductCheck(p, x, pdp, q, y, qdp, m, z, common);
  }

  lemma NotionalAtOwnScales(
    price: string, pw: string, pf: string, quantity: string, qw: string, qf: string,
    minimum: string, mw: string, mf: string)
    requires Reads(price, pw, pf) && Reads(quantity, qw, qf) && Reads(minimum, mw, mf)
    ensures NotionalAtScales(price, |pf|, quantity, |qf|, minimum, |mf|)
            == Ok(NotionalAtLeast(Meaning(pw, pf), Meaning(qw, qf), Meaning(mw, mf)))
  {
    WellFormedLifts(price, pw, pf);
    WellFormedLifts(quantity, qw, qf);
    WellFormedLifts(minimum, mw, mf);
    LiftedNotional(
      price, |pf|, Meaning(pw, pf), quantity, |qf|, Meaning(qw, qf), minimum, |mf|, Meaning(mw, mf));
  }

  lemma CountReads(text: string, whole: string, frac: string)
    requires Reads(text, whole, frac) && |frac| <= MAX_DECIMAL_DIGITS
    ensures CountDecimals(text) == Ok(|frac|)
  {
    ParseReads(text, whole, frac, MAX_DECIMAL_DIGITS);
  }

  lemma CountedNotional(price: string, pdp: nat, quantity: string, qdp: nat, minimum: string, mdp: nat)
    requires CountDecimals(price) == Ok(pdp) && CountDecimals(quantity) == Ok(qdp) && CountDecimals(minimum) == Ok(mdp)
    ensures NotionalMeetsMinimum(price, quantity, minimum)
            == NotionalAtScales(price, pdp, quantity, qdp, minimum, mdp)
  {
  }

  /** `notional_meets_minimum` decides price * quantity >= minimum exactly. */
  lemma NotionalCheckIsExact(
    price: string, pw: string, pf: string, quantity: string, qw: string, qf: string,
    minimum: string, mw: string, mf: string)
    requires Reads(price, pw, pf) && Reads(quantity, qw, qf) && Reads(minimum, mw, mf)
    requires |pf| <= MAX_DECIMAL_DIGITS && |qf| <= MAX_DECIMAL_DIGITS && |mf| <= MAX_DECIMAL_DIGITS
    ensures NotionalMeetsMinimum(price, quantity, minimum)
            == Ok(NotionalAtLeast(Meaning(pw, pf), Meaning(qw, qf), Meaning(mw, mf)))
  {
    assert NotionalMeetsMinimum(price, quantity, minimum)
        == NotionalAtScales(price, |pf|, quantity, |qf|, minimum, |mf|) by {
      CountReads(price, pw, pf);
      CountReads(quantity, qw, qf);
      CountReads(minimum, mw, mf);
      CountedNotional(price, |pf|, quantity, |qf|, minimum, |mf|);
    }
    NotionalAtOwnScales(price, pw, pf, quantity, qw, qf, minimum, mw, mf);
  }

  ghost function RationalOrder(x: real, y: real): Ordering {
    if x < y then Less else if x == y then Equal else Greater
  }

  lemma CmpScaledIsOrder(l: nat, x: real, ldp: nat, r: nat, y: real, rdp: nat)
    requires Scaled(l, x, ldp) && Scaled(r, y, rdp)
    requires ldp <= rdp + U32_MAX && rdp <= ldp + U32_MAX
    ensures CmpScaled(l, ldp, r, rdp) == Ok(RationalOrder(x, y))
  {
    if ldp < rdp {
      ScaleUp(l, x, ldp, rdp - ldp);
      ScaledOrder(ShiftLeft(l, rdp - ldp), x, r, y, rdp);
    } else if rdp < ldp {
      ScaleUp(r, y, rdp, ldp - rdp);
      ScaledOrder(l, x, ShiftLeft(r, ldp - rdp), y, ldp);
    } else {
      ScaledOrder(l, x, r, y, ldp);
    }
  }

  /** `decimal_string_cmp` is the order of the rationals, as long as the precisions differ by less than 2^32. */
  lemma CmpIsRationalOrder(left: string, lw: string, lf: string, right: string, rw: string, rf: string)
    requires Reads(left, lw, lf) && Reads(right, rw, rf)
    requires |lf| <= |rf| + U32_MAX && |rf| <= |lf| + U32_MAX
    ensures DecimalStringCmp(left, right) == Ok(RationalOrder(Meaning(lw, lf), Meaning(rw, rf)))
  {
    ParseReads(left, lw, lf, 0);
    ParseReads(right, rw, rf, 0);
    DigitsAreScaled(lw, lf);
    DigitsAreScaled(rw, rf);
    CmpScaledIsOrder(Value(lw + lf), Meaning(lw, lf), |lf|, Value(rw + rf), Meaning(rw, rf), |rf|);
  }

  /** The comparison is refused exactly when a side is ill-formed or the precisions are 2^32 or more apart. */
  lemma CmpRefusesIff(left: string, right: string)
    ensures DecimalStringCmp(left, right).Ok? <==>
              exists lw, lf, rw, rf ::
                && Reads(left, lw, lf) && Reads(right, rw, rf)
                && |lf| <= |rf| + U32_MAX && |rf| <= |lf| + U32_MAX
    ensures DecimalStringCmp(left, right).Err? ==> DecimalStringCmp(left, right) == Err(MarketInconsistent)
  {
    ReadModelParsesIff(left);
    ReadModelParsesIff(right);
    if lw, lf, rw, rf :| Reads(left, lw, lf) && Reads(right, rw, rf) {
      ParseReads(left, lw, lf, 0);
      ParseReads(right, rw, rf, 0);
    }
    if lw, lf, rw, rf :| && Reads(left, lw, lf) && Reads(right, rw, rf)
                         && |lf| <= |rf| + U32_MAX && |rf| <= |lf| + U32_MAX {
      CmpIsRationalOrder(left, lw, lf, right, rw, rf);
    }
  }

  lemma ExpandFraction(w: nat, f: nat, p: nat, z: nat)
    requires p > 0 && z > 0
    ensures p * z > 0 && Mixed(w, f * z, p * z) == Mixed(w, f, p)
  {
  }

  /** Trailing zeros do not change the meaning, so they do not change any comparison. */
  lemma TrailingZerosMeanNothing(whole: string, frac: string, k: nat)
    requires AllDigits(whole) && AllDigits(frac)
    ensures AllDigits(frac + Zeros(k)) && Meaning(whole, frac + Zeros(k)) == Meaning(whole, frac)
  {
    ValueConcat(frac, Zeros(k));
    ValueOfZeros(k);
    Pow10Adds(|frac|, k);
    ExpandFraction(Value(whole), Value(frac), Pow10(|frac|), Pow10(k));
  }

  // ---------------------------------------------------------------- the same laws, by denotation

  /** `text` is a well-formed decimal with `dp` fractional digits whose value is `x`. */
  ghost predicate Denotes(text: string, dp: nat, x: real) {
    exists whole, frac :: Reads(text, whole, frac) && |frac| == dp && Meaning(whole, frac) == x
  }

  /** Parsing succeeds exactly on the well-formed strings of admitted precision. */
  lemma ParsesIffDenotes(text: string, max: nat)
    ensures ParsePositiveDecimal(text, max).Ok? <==> exists dp: nat, x: real :: Denotes(text, dp, x) && dp <= max
  {
    if ParsePositiveDecimal(text, max).Ok? {
      var whole, frac := ParsedIsWellFormed(text, max);
      assert Denotes(text, |frac|, Meaning(whole, frac));
    }
    if dp: nat, x: real :| Denotes(text, dp, x) && dp <= max {
      var whole, frac :| Reads(text, whole, frac) && |frac| == dp && Meaning(whole, frac) == x;
      ParseReads(text, whole, frac, max);
    }
  }

  lemma DenotedPrecision(text: string, dp: nat, x: real, max: nat)
    requires Denotes(text, dp, x)
    ensures PrecisionWithin(text, max) == if dp <= max then Ok(()) else Err(PrecisionExceeded)
    ensures LiftDecimal(text, max).Ok? <==> dp <= max
    ensures dp > max ==> LiftDecimal(text, max) == Err(PrecisionExceeded)
  {
    var whole, frac :| Reads(text, whole, frac) && |frac| == dp && Meaning(whole, frac) == x;
    ParseReads(text, whole, frac, max);
  }

  lemma DenotedLifts(text: string, dp: nat, x: real)
    requires Denotes(text, dp, x)
    ensures LiftsFrom(text, dp, x)
  {
    var whole, frac :| Reads(text, whole, frac) && |frac| == dp && Meaning(whole, frac) == x;
    WellFormedLifts(text, whole, frac);
  }

  /** Beyond the cap on fractional digits the checks refuse the string. */
  lemma DenotedCount(text: string, dp: nat, x: real)
    requires Denotes(text, dp, x)
    ensures CountDecimals(text) == if dp <= MAX_DECIMAL_DIGITS then Ok(dp) else Err(PrecisionExceeded)
  {
    var whole, frac :| Reads(text, whole, frac) && |frac| == dp && Meaning(whole, frac) == x;
    ParseReads(text, whole, frac, MAX_DECIMAL_DIGITS);
  }

  lemma DenotedMultiple(value: string, vdp: nat, x: real, step: string, sdp: nat, y: real)
    requires Denotes(value, vdp, x) && Denotes(step, sdp, y)
    requires vdp <= MAX_DECIMAL_DIGITS && sdp <= MAX_DECIMAL_DIGITS
    ensures IsMultipleOf(value, step) == if y == 0.0 then Err(InvalidParameter) else Ok(IsMultiple(x, y))
  {
    var vw, vf :| Reads(value, vw, vf) && |vf| == vdp && Meaning(vw, vf) == x;
    var sw, sf :| Reads(step, sw, sf) && |sf| == sdp && Meaning(sw, sf) == y;
    MultipleCheckIsExact(value, vw, vf, step, sw, sf);
  }

  lemma DenotedNotional(
    price: string, pdp: nat, x: real, quantity: string, qdp: nat, y: real, minimum: string, mdp: nat, z: real)
    requires Denotes(price, pdp, x) && Denotes(quantity, qdp, y) && Denotes(minimum, mdp, z)
    requires pdp <= MAX_DECIMAL_DIGITS && qdp <= MAX_DECIMAL_DIGITS && mdp <= MAX_DECIMAL_DIGITS
    ensures NotionalMeetsMinimum(price, quantity, minimum) == Ok(NotionalAtLeast(x, y, z))
  {
    var pw, pf :| Reads(price, pw, pf) && |pf| == pdp && Meaning(pw, pf) == x;
    var qw, qf :| Reads(quantity, qw, qf) && |qf| == qdp && Meaning(qw, qf) == y;
    var mw, mf :| Reads(minimum, mw, mf) && |mf| == mdp && Meaning(mw, mf) == z;
    NotionalCheckIsExact(price, pw, pf, quantity, qw, qf, minimum, mw, mf);
  }
}
