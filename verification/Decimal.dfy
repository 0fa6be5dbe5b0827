/** Decimal strings: parsing, lifting to scaled integers, printing, and the exact checks built on them. */
module Decimal {
  import opened Prelude
  import opened Digits

  datatype DomainError =
    | MissingParameter | InvalidParameter | PrecisionExceeded | MarketInconsistent
    | OrderValidationFailed | UnknownOrder | InvalidMarketOrSymbol | Unexpected

  datatype Result<+T> = Ok(value: T) | Err(error: DomainError) {
    predicate IsFailure() {
      Err?
    }

    function PropagateFailure<U>(): Result<U>
      requires IsFailure()
    {
      Err(error)
    }

    function Extract(): T
      requires !IsFailure()
    {
      value
    }
  }

  /** Cap on fractional digits in the exact checks. */
  const MAX_DECIMAL_DIGITS: nat := 38

  /** On-chain price scale: basis points. */
  const PRICE_BPS_DECIMALS: nat := 4

  // ---------------------------------------------------------------- text

  /** Unicode White_Space, what `str::trim` strips. */
  predicate IsSpace(c: char) {
    || '\U{9}' <= c <= '\U{D}' || c == ' ' || c == '\U{85}' || c == '\U{A0}' || c == '\U{1680}'
    || '\U{2000}' <= c <= '\U{200A}' || c == '\U{2028}' || c == '\U{2029}' || c == '\U{202F}'
    || c == '\U{205F}' || c == '\U{3000}'
  }

  function TrimStart(s: string): string
    decreases |s|
  {
    if s != "" && IsSpace(s[0]) then TrimStart(s[1..]) else s
  }

  function TrimEnd(s: string): string
    decreases |s|
  {
    if s != "" && IsSpace(s[|s| - 1]) then TrimEnd(s[..|s| - 1]) else s
  }

  function Trim(s: string): string {
    TrimEnd(TrimStart(s))
  }

  /** Index of the first `c`, or the length. */
  function IndexOf(s: string, c: char): (i: nat)
    ensures i <= |s| && (forall j :: 0 <= j < i ==> s[j] != c) && (i < |s| ==> s[i] == c)
    decreases |s|
  {
    if s == "" || s[0] == c then 0 else 1 + IndexOf(s[1..], c)
  }

  /** `split_once('.').unwrap_or((s, ""))`. */
  function SplitPoint(s: string): (string, string) {
    var i := IndexOf(s, '.');
    if i < |s| then (s[..i], s[i + 1..]) else (s, "")
  }

  function DropUnderscores(s: string): string
    decreases |s|
  {
    if s == "" then ""
    else DropUnderscores(s[..|s| - 1]) + (if s[|s| - 1] == '_' then "" else [s[|s| - 1]])
  }

  /** The big-integer parser: an optional plus sign, digits, underscores after the first digit. */
  function ParseBigUint(text: string): Option<nat> {
    var s := if |text| > 0 && text[0] == '+' && !(|text| > 1 && text[1] == '+') then text[1..] else text;
    if s == "" || s[0] == '_' then None
    else
      var digits := DropUnderscores(s);
      if AllDigits(digits) then Some(Value(digits)) else None
  }

  // ---------------------------------------------------------------- parsing and lifting

  predicate NumeralChars(s: string) {
    forall i :: 0 <= i < |s| ==> IsDigit(s[i]) || s[i] == '.'
  }

  /** The scaled digits and the number of fractional digits. */
  function ParsePositiveDecimal(value: string, maxDecimals: nat): (r: Result<(nat, nat)>)
    ensures r.Ok? ==> r.value.1 <= maxDecimals
  {
    var trimmed := Trim(value);
    if trimmed == "" then Err(MissingParameter)
    else if !NumeralChars(trimmed) then Err(InvalidParameter)
    else
      var (whole, frac) := SplitPoint(trimmed);
      if whole == "" && frac == "" then Err(InvalidParameter)
      else if |frac| > maxDecimals then Err(PrecisionExceeded)
      else
        match ParseBigUint(whole + frac)
        case Some(n) => Ok((n, |frac|))
        case None => Err(InvalidParameter)
  }

  function LiftDecimal(value: string, target: nat): Result<nat> {
    var p :- ParsePositiveDecimal(value, target);
    Ok(ShiftLeft(p.0, target - p.1))
  }

  /** Drops the last `k` digits; any nonzero dropped digit is an error. */
  function DropLast(s: string, k: nat): Result<string> {
    if k == 0 then Ok(s)
    else
      var keep := if |s| <= k then 0 else |s| - k;
      if exists i :: keep <= i < |s| && s[i] != '0' then Err(MarketInconsistent)
      else if keep == 0 then Ok("0")
      else Ok(s[..keep])
  }

  /** Divides an integer string by 10^k. */
  function DescalePow10(raw: string, k: nat): Result<string> {
    var s := Trim(raw);
    if s == "" || !AllDigits(s) then Err(MarketInconsistent) else DropLast(s, k)
  }

  // ---------------------------------------------------------------- printing

  /** Format with `{:0>width}`. */
  function PadLeft(s: string, width: nat): string {
    if |s| >= width then s else Zeros(width - |s|) + s
  }

  /** `n / 10^d`, a point, and `n % 10^d` padded to `d` digits. */
  function FixedPoint(n: nat, d: nat): string {
    ToDigits(Quotient(n, Pow10(d))) + "." + PadLeft(ToDigits(Remainder(n, Pow10(d))), d)
  }

  function NormalizeDecimal(value: string, target: nat): Result<string> {
    var scaled :- LiftDecimal(value, target);
    Ok(if target == 0 then ToDigits(scaled) else FixedPoint(scaled, target))
  }

  /** Inserts a point before the last `d` digits of a canonical integer, padding with zeros. */
  function InsertPoint(raw: string, d: nat): string {
    if d == 0 then raw + ".0"
    else if |raw| <= d then "0." + (Zeros(d - |raw|) + raw)
    else raw[..|raw| - d] + "." + raw[|raw| - d..]
  }

  function ScaleDecimal(text: string, decimals: nat): Result<string> {
    if decimals > MAX_DECIMAL_DIGITS then Err(MarketInconsistent)
    else
      match ParseBigUint(if text == "" then "0" else text)
      case None => Err(MarketInconsistent)
      case Some(n) => Ok(InsertPoint(ToDigits(n), decimals))
  }

  // ---------------------------------------------------------------- exact checks

  function CountDecimals(value: string): Result<nat> {
    var p :- ParsePositiveDecimal(value, MAX_DECIMAL_DIGITS);
    Ok(p.1)
  }

  function PrecisionWithin(value: string, maxDecimals: nat): Result<()> {
    var _ :- ParsePositiveDecimal(value, maxDecimals);
    Ok(())
  }

  function Max(a: nat, b: nat): nat {
    if a < b then b else a
  }

  function IsMultipleOf(value: string, step: string): Result<bool> {
    var vdp :- CountDecimals(value);
    var sdp :- CountDecimals(step);
    var scale := Max(vdp, sdp);
    var v :- LiftDecimal(value, scale);
    var s :- LiftDecimal(step, scale);
    if s == 0 then Err(InvalidParameter) else Ok(v % s == 0)
  }

  predicate ProductAtLeast(p: nat, q: nat, pad: nat, minimum: nat) {
    ShiftLeft(p * q, pad) >= minimum
  }

  /** The check at known precisions. */
  function NotionalAtScales(
    price: string, pdp: nat, quantity: string, qdp: nat, minimum: string, mdp: nat): Result<bool>
  {
    var p :- LiftDecimal(price, pdp);
    var q :- LiftDecimal(quantity, qdp);
    var common := Max(pdp + qdp, mdp);
    var m :- LiftDecimal(minimum, common);
    Ok(ProductAtLeast(p, q, common - (pdp + qdp), m))
  }

  function NotionalMeetsMinimum(price: string, quantity: string, minimum: string): Result<bool> {
    var pdp :- CountDecimals(price);
    var qdp :- CountDecimals(quantity);
    var mdp :- CountDecimals(minimum);
    NotionalAtScales(price, pdp, quantity, qdp, minimum, mdp)
  }

  /** The read-model parser: same shape, one error, no cap. */
  function ParseDecimalString(text: string): Result<(nat, nat)> {
    var s := Trim(text);
    if s == "" then Err(MarketInconsistent)
    else
      var (whole, frac) := SplitPoint(s);
      if whole == "" && frac == "" then Err(MarketInconsistent)
      else if !AllDigits(whole + frac) then Err(MarketInconsistent)
      else
        match ParseBigUint(whole + frac)
        case Some(n) => Ok((n, |frac|))
        case None => Err(MarketInconsistent)
  }

  datatype Ordering = Less | Equal | Greater

  function Compare(a: nat, b: nat): Ordering {
    if a < b then Less else if a == b then Equal else Greater
  }

  const U32_MAX: nat := 0xFFFF_FFFF

  /** Rescales the coarser of two scaled integers and compares; a shift beyond u32 is an error. */
  function CmpScaled(l: nat, ldp: nat, r: nat, rdp: nat): Result<Ordering> {
    if ldp < rdp then
      if rdp - ldp > U32_MAX then Err(MarketInconsistent) else Ok(Compare(ShiftLeft(l, rdp - ldp), r))
    else if rdp < ldp then
      if ldp - rdp > U32_MAX then Err(MarketInconsistent) else Ok(Compare(l, ShiftLeft(r, ldp - rdp)))
    else Ok(Compare(l, r))
  }

  function DecimalStringCmp(left: string, right: string): Result<Ordering> {
    var l :- ParseDecimalString(left);
    var r :- ParseDecimalString(right);
    CmpScaled(l.0, l.1, r.0, r.1)
  }
}
