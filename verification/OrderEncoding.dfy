/**
 Validation of one order and its encoding to the chain's integers, against two independent
 references: the rational numbers the strings denote, and the gates the note contract applies.
 */
module OrderEncoding {
  import opened Prelude
  import opened Digits
  import opened Decimal
  import opened DecimalMeaning
  import opened DecimalRoundTrip

  datatype OrderSide = Buy | Sell
  datatype OrderType = Limit | Market
  datatype TimeInForce = Gtc | Ioc | Fok | PostOnly

  datatype Outcome = Outcome(
    outcomeId: nat, pricePrecision: nat, quantityPrecision: nat,
    tickSize: string, stepSize: string, minNotional: string)

  /** One item of a batch payload. The raw amounts travel as decimal strings. */
  datatype EncodedOrder = EncodedOrder(
    outcomeId: nat, isBuy: bool, priceRaw: string, amountRaw: string, flags: nat, clientOrderId: string)

  /** An order as the client wrote it. */
  datatype OrderItem = OrderItem(
    side: OrderSide, quantity: string, price: Option<string>, orderType: OrderType,
    timeInForce: Option<TimeInForce>, clientOrderId: Option<string>)

  const U64_MAX: nat := 0xFFFF_FFFF_FFFF_FFFF
  const FLAG_IOC: nat := 1
  const FLAG_FOK: nat := 2
  const FLAG_MARKET: nat := 4
  const FLAG_POST_ONLY: nat := 8

  function EncodeOrderFlags(orderType: OrderType, timeInForce: Option<TimeInForce>): Result<nat> {
    match orderType
    case Limit =>
      (match if timeInForce.Some? then timeInForce.value else Gtc
       case Gtc => Ok(0)
       case Ioc => Ok(FLAG_IOC)
       case Fok => Ok(FLAG_FOK)
       case PostOnly => Ok(FLAG_POST_ONLY))
    case Market =>
      if timeInForce == None || timeInForce == Some(Ioc) then Ok(FLAG_MARKET) else Err(InvalidParameter)
  }

  /** A price is required for LIMIT and refused for MARKET. */
  function ResolvePrice(orderType: OrderType, price: Option<string>): Result<Option<string>> {
    match (orderType, price)
    case (Limit, Some(_)) => Ok(price)
    case (Limit, None) => Err(MissingParameter)
    case (Market, None) => Ok(None)
    case (Market, Some(_)) => Err(InvalidParameter)
  }

  /** Precision, grid and lift of one number. */
  function OnGrid(text: string, precision: nat, step: string, scale: nat): Result<nat> {
    var _ :- PrecisionWithin(text, precision);
    var multiple :- IsMultipleOf(text, step);
    if !multiple then Err(PrecisionExceeded) else LiftDecimal(text, scale)
  }

  function EncodePrice(price: Option<string>, outcome: Outcome): Result<nat> {
    match price
    case Some(p) => OnGrid(p, outcome.pricePrecision, outcome.tickSize, PRICE_BPS_DECIMALS)
    case None => Ok(0)
  }

  function EncodeAmount(quantity: string, outcome: Outcome, quoteDecimals: nat): Result<nat> {
    var amount :- OnGrid(quantity, outcome.quantityPrecision, outcome.stepSize, quoteDecimals);
    if amount == 0 || amount > U64_MAX then Err(OrderValidationFailed) else Ok(amount)
  }

  function CheckNotional(
    orderType: OrderType, side: OrderSide, price: Option<string>, quantity: string,
    outcome: Outcome): Result<()>
  {
    match (orderType, side, price)
    case (Limit, _, Some(p)) =>
      var meets :- NotionalMeetsMinimum(p, quantity, outcome.minNotional);
      if meets then Ok(()) else Err(OrderValidationFailed)
    case (Market, Buy, _) =>
      var meets :- NotionalMeetsMinimum("1", quantity, outcome.minNotional);
      if meets then Ok(()) else Err(OrderValidationFailed)
    case (Market, Sell, _) => Ok(())
    case (Limit, _, None) => Err(Unexpected)
  }

  /** `str::parse::<u64>`: an optional plus sign, then digits, no overflow. */
  function ParseU64(raw: string): Option<nat> {
    var s := if raw != "" && raw[0] == '+' then raw[1..] else raw;
    if s == "" || !AllDigits(s) then None
    else if Value(s) > U64_MAX then None
    else Some(Value(s))
  }

  /** The caller's id as written, if it is a `u64`, or the generated one. */
  function ResolveClientId(clientOrderId: Option<string>, generated: nat): Result<string> {
    match clientOrderId
    case Some(raw) => if ParseU64(raw).Some? then Ok(raw) else Err(InvalidParameter)
    case None => Ok(ToDigits(generated))
  }

  /** The encoded order, or the error of the first check that fails. */
  function Assemble(
    outcomeId: nat, isBuy: bool, flags: nat, price: Result<nat>, amount: Result<nat>, notional: Result<()>,
    clientId: Result<string>): (r: Result<EncodedOrder>)
    ensures r.Ok? <==> price.Ok? && amount.Ok? && notional.Ok? && clientId.Ok?
    ensures r.Err? ==>
              r.error == if price.Err? then price.error
                         else if amount.Err? then amount.error
                         else if notional.Err? then notional.error
                         else clientId.error
  {
    var priceRaw :- price;
    var amountRaw :- amount;
    var _ :- notional;
    var id :- clientId;
    Ok(EncodedOrder(outcomeId, isBuy, ToDigits(priceRaw), ToDigits(amountRaw), flags, id))
  }

  /** `generated` stands for the random id drawn when the caller supplies none. */
  function ValidateAndEncode(
    item: OrderItem, outcome: Outcome, quoteDecimals: nat, generated: nat): (r: Result<EncodedOrder>)
    ensures r.Ok? ==>
              && EncodeOrderFlags(item.orderType, item.timeInForce) == Ok(r.value.flags)
              && r.value.isBuy == (item.side == Buy) && r.value.outcomeId == outcome.outcomeId
              && (item.clientOrderId.Some? ==> r.value.clientOrderId == item.clientOrderId.value)
              && (item.clientOrderId.None? ==> r.value.clientOrderId == ToDigits(generated))
  {
    var flags :- EncodeOrderFlags(item.orderType, item.timeInForce);
    var price :- ResolvePrice(item.orderType, item.price);
    Assemble(
      outcome.outcomeId, item.side.Buy?, flags, EncodePrice(price, outcome),
      EncodeAmount(item.quantity, outcome, quoteDecimals),
      CheckNotional(item.orderType, item.side, price, item.quantity, outcome),
      ResolveClientId(item.clientOrderId, generated))
  }

  /** The optional plus sign of a number. */
  function Unsigned(raw: string): string {
    if raw != "" && raw[0] == '+' then raw[1..] else raw
  }

  /** An order goes out under the client's own id, as written, or under the drawn one; either is a `u64`. */
  lemma EncodedIdIsTheClients(item: OrderItem, outcome: Outcome, quoteDecimals: nat, generated: nat)
    requires ValidateAndEncode(item, outcome, quoteDecimals, generated).Ok? && generated <= U64_MAX
    ensures var id := ValidateAndEncode(item, outcome, quoteDecimals, generated).value.clientOrderId;
            && (item.clientOrderId.Some? ==> id == item.clientOrderId.value)
            && (item.clientOrderId.None? ==> AllDigits(id) && Value(id) == generated)
            && Unsigned(id) != "" && AllDigits(Unsigned(id)) && Value(Unsigned(id)) <= U64_MAX
  {
    ValueOfToDigits(generated);
    assert IsDigit(ToDigits(generated)[0]);
  }

  // ---------------------------------------------------------------- against the rationals

  /** A positive grid or minimum of admitted precision. */
  ghost predicate Rule(text: string, x: real) {
    exists dp: nat :: Denotes(text, dp, x) && dp <= MAX_DECIMAL_DIGITS
  }

  /** The market's rules as numbers. */
  ghost predicate Rules(outcome: Outcome, tick: real, step: real, minimum: real) {
    && Rule(outcome.tickSize, tick) && tick != 0.0
    && Rule(outcome.stepSize, step) && step != 0.0
    && Rule(outcome.minNotional, minimum)
  }

  /** Only well-formed numbers get through. */
  lemma OnGridReads(text: string, precision: nat, step: string, scale: nat) returns (dp: nat, x: real)
    requires OnGrid(text, precision, step, scale).Ok?
    ensures Denotes(text, dp, x)
  {
    ParsesIffDenotes(text, precision);
    dp, x :| Denotes(text, dp, x) && dp <= precision;
  }

  /** A number gets through exactly when it has no more digits than every limit and lies on the grid. */
  lemma OnGridIff(text: string, dp: nat, x: real, precision: nat, step: string, y: real, scale: nat)
    requires Denotes(text, dp, x) && Rule(step, y) && y != 0.0
    ensures OnGrid(text, precision, step, scale).Ok?
            <==> dp <= precision && dp <= MAX_DECIMAL_DIGITS && dp <= scale && IsMultiple(x, y)
    ensures OnGrid(text, precision, step, scale).Err? ==>
              OnGrid(text, precision, step, scale) == Err(PrecisionExceeded)
  {
    var sdp: nat :| Denotes(step, sdp, y) && sdp <= MAX_DECIMAL_DIGITS;
    DenotedPrecision(text, dp, x, precision);
    DenotedPrecision(text, dp, x, scale);
    DenotedCount(text, dp, x);
    if dp <= MAX_DECIMAL_DIGITS {
      DenotedMultiple(text, dp, x, step, sdp, y);
    }
  }

  lemma OnGridValue(text: string, dp: nat, x: real, precision: nat, step: string, scale: nat)
    requires Denotes(text, dp, x) && OnGrid(text, precision, step, scale).Ok?
    ensures Scaled(OnGrid(text, precision, step, scale).value, x, scale)
  {
    DenotedPrecision(text, dp, x, scale);
    DenotedLifts(text, dp, x);
  }

  /** The rational amount is positive and fits 64 bits at the chain's scale. */
  ghost predicate AmountFits(y: real, scale: nat) {
    0.0 < y && y * Pow10(scale) as real <= U64_MAX as real
  }

  lemma AmountRange(n: nat, y: real, scale: nat)
    requires Scaled(n, y, scale)
    ensures 1 <= n <= U64_MAX <==> AmountFits(y, scale)
  {
  }

  lemma EncodeAmountIff(quantity: string, dp: nat, y: real, outcome: Outcome, step: real, scale: nat)
    requires Denotes(quantity, dp, y) && Rule(outcome.stepSize, step) && step != 0.0
    ensures EncodeAmount(quantity, outcome, scale).Ok?
            <==> && dp <= outcome.quantityPrecision && dp <= MAX_DECIMAL_DIGITS && dp <= scale
                 && IsMultiple(y, step) && AmountFits(y, scale)
    ensures EncodeAmount(quantity, outcome, scale).Ok? ==>
              Scaled(EncodeAmount(quantity, outcome, scale).value, y, scale)
    ensures EncodeAmount(quantity, outcome, scale).Err? ==>
              EncodeAmount(quantity, outcome, scale)
              == Err(if && dp <= outcome.quantityPrecision && dp <= MAX_DECIMAL_DIGITS && dp <= scale
                        && IsMultiple(y, step)
                     then OrderValidationFailed else PrecisionExceeded)
  {
    OnGridIff(quantity, dp, y, outcome.quantityPrecision, outcome.stepSize, step, scale);
    var grid := OnGrid(quantity, outcome.quantityPrecision, outcome.stepSize, scale);
    if grid.Ok? {
      OnGridValue(quantity, dp, y, outcome.quantityPrecision, outcome.stepSize, scale);
      AmountRange(grid.value, y, scale);
    }
  }

  lemma LimitNotionalIff(
    side: OrderSide, price: string, pdp: nat, x: real, quantity: string, qdp: nat, y: real, outcome: Outcome,
    minimum: real)
    requires Denotes(price, pdp, x) && Denotes(quantity, qdp, y) && Rule(outcome.minNotional, minimum)
    requires pdp <= MAX_DECIMAL_DIGITS && qdp <= MAX_DECIMAL_DIGITS
    ensures CheckNotional(Limit, side, Some(price), quantity, outcome)
            == if NotionalAtLeast(x, y, minimum) then Ok(()) else Err(OrderValidationFailed)
  {
    var mdp: nat :| Denotes(outcome.minNotional, mdp, minimum) && mdp <= MAX_DECIMAL_DIGITS;
    DenotedNotional(price, pdp, x, quantity, qdp, y, outcome.minNotional, mdp, minimum);
  }

  /** A client id, if there is one, is digits after an optional plus sign, and fits 64 bits. */
  ghost predicate ClientIdAccepted(clientOrderId: Option<string>) {
    clientOrderId.Some? ==>
      var digits := Unsigned(clientOrderId.value);
      digits != "" && AllDigits(digits) && Value(digits) <= U64_MAX
  }

  /** Price and quantity have admitted precision and lie on their grids. */
  ghost predicate OnBothGrids(
    outcome: Outcome, quoteDecimals: nat, pdp: nat, x: real, qdp: nat, y: real, tick: real, step: real)
  {
    && pdp <= outcome.pricePrecision && pdp <= PRICE_BPS_DECIMALS && IsMultiple(x, tick)
    && qdp <= outcome.quantityPrecision && qdp <= MAX_DECIMAL_DIGITS && qdp <= quoteDecimals && IsMultiple(y, step)
  }

  /** What the market's documented rules ask of a LIMIT order, on the exact values. */
  ghost predicate LimitAdmissible(
    outcome: Outcome, quoteDecimals: nat, pdp: nat, x: real, qdp: nat, y: real, tick: real, step: real,
    minimum: real)
  {
    && OnBothGrids(outcome, quoteDecimals, pdp, x, qdp, y, tick, step)
    && AmountFits(y, quoteDecimals) && NotionalAtLeast(x, y, minimum)
  }

  lemma ClientIdIff(clientOrderId: Option<string>, generated: nat)
    ensures ResolveClientId(clientOrderId, generated).Ok? <==> ClientIdAccepted(clientOrderId)
    ensures ResolveClientId(clientOrderId, generated).Err? ==>
              ResolveClientId(clientOrderId, generated) == Err(InvalidParameter)
  {
  }

  /** The steps of an accepted LIMIT order. */
  lemma LimitUnfolds(item: OrderItem, outcome: Outcome, quoteDecimals: nat, generated: nat)
    requires item.orderType == Limit && item.price.Some?
    ensures ValidateAndEncode(item, outcome, quoteDecimals, generated).Ok?
            <==> && EncodePrice(item.price, outcome).Ok?
                 && EncodeAmount(item.quantity, outcome, quoteDecimals).Ok?
                 && CheckNotional(Limit, item.side, item.price, item.quantity, outcome).Ok?
                 && ClientIdAccepted(item.clientOrderId)
    ensures ValidateAndEncode(item, outcome, quoteDecimals, generated).Ok? ==>
              var e := ValidateAndEncode(item, outcome, quoteDecimals, generated).value;
              && e.outcomeId == outcome.outcomeId && e.isBuy == item.side.Buy?
              && Value(e.priceRaw) == EncodePrice(item.price, outcome).value
              && Value(e.amountRaw) == EncodeAmount(item.quantity, outcome, quoteDecimals).value
              && EncodeOrderFlags(Limit, item.timeInForce) == Ok(e.flags)
  {
    var r := ValidateAndEncode(item, outcome, quoteDecimals, generated);
    ClientIdIff(item.clientOrderId, generated);
    if r.Ok? {
      ValueOfToDigits(EncodePrice(item.price, outcome).value);
      ValueOfToDigits(EncodeAmount(item.quantity, outcome, quoteDecimals).value);
    }
  }

  /**
   A LIMIT order is accepted exactly when its exact values meet the market's rules, and is encoded
   without rounding.
   */
  lemma LimitAcceptedIff(
    item: OrderItem, outcome: Outcome, quoteDecimals: nat, generated: nat,
    pdp: nat, x: real, qdp: nat, y: real, tick: real, step: real, minimum: real)
    requires item.orderType == Limit && item.price.Some?
    requires Denotes(item.price.value, pdp, x) && Denotes(item.quantity, qdp, y)
    requires Rules(outcome, tick, step, minimum)
    ensures ValidateAndEncode(item, outcome, quoteDecimals, generated).Ok?
            <==> && LimitAdmissible(outcome, quoteDecimals, pdp, x, qdp, y, tick, step, minimum)
                 && ClientIdAccepted(item.clientOrderId)
    ensures ValidateAndEncode(item, outcome, quoteDecimals, generated).Ok? ==>
              var e := ValidateAndEncode(item, outcome, quoteDecimals, generated).value;
              && AllDigits(e.priceRaw) && Scaled(Value(e.priceRaw), x, PRICE_BPS_DECIMALS)
              && AllDigits(e.amountRaw) && Scaled(Value(e.amountRaw), y, quoteDecimals)
  {
    var price := item.price.value;
    LimitUnfolds(item, outcome, quoteDecimals, generated);
    OnGridIff(price, pdp, x, outcome.pricePrecision, outcome.tickSize, tick, PRICE_BPS_DECIMALS);
    EncodeAmountIff(item.quantity, qdp, y, outcome, step, quoteDecimals);
    if EncodePrice(item.price, outcome).Ok? {
      OnGridValue(price, pdp, x, outcome.pricePrecision, outcome.tickSize, PRICE_BPS_DECIMALS);
      if EncodeAmount(item.quantity, outcome, quoteDecimals).Ok? {
        LimitNotionalIff(item.side, price, pdp, x, item.quantity, qdp, y, outcome, minimum);
      }
    }
  }

  /** The steps of a LIMIT order. */
  lemma LimitIsAssembled(item: OrderItem, outcome: Outcome, quoteDecimals: nat, generated: nat)
    requires item.orderType == Limit && item.price.Some?
    ensures ValidateAndEncode(item, outcome, quoteDecimals, generated)
            == Assemble(outcome.outcomeId, item.side.Buy?, EncodeOrderFlags(Limit, item.timeInForce).value,
                        EncodePrice(item.price, outcome), EncodeAmount(item.quantity, outcome, quoteDecimals),
                        CheckNotional(Limit, item.side, item.price, item.quantity, outcome),
                        ResolveClientId(item.clientOrderId, generated))
  {
  }

  /**
   Why a LIMIT order with readable numbers is refused: off a grid or too precise, else too small or too large,
   else a bad client id, in this order.
   */
  lemma LimitRefusal(
    item: OrderItem, outcome: Outcome, quoteDecimals: nat, generated: nat,
    pdp: nat, x: real, qdp: nat, y: real, tick: real, step: real, minimum: real)
    requires item.orderType == Limit && item.price.Some?
    requires Denotes(item.price.value, pdp, x) && Denotes(item.quantity, qdp, y)
    requires Rules(outcome, tick, step, minimum)
    requires ValidateAndEncode(item, outcome, quoteDecimals, generated).Err?
    ensures ValidateAndEncode(item, outcome, quoteDecimals, generated)
            == Err(if !OnBothGrids(outcome, quoteDecimals, pdp, x, qdp, y, tick, step) then PrecisionExceeded
                   else if !AmountFits(y, quoteDecimals) || !NotionalAtLeast(x, y, minimum) then OrderValidationFailed
                   else InvalidParameter)
  {
    var price := item.price.value;
    LimitAcceptedIff(item, outcome, quoteDecimals, generated, pdp, x, qdp, y, tick, step, minimum);
    LimitIsAssembled(item, outcome, quoteDecimals, generated);
    ClientIdIff(item.clientOrderId, generated);
    OnGridIff(price, pdp, x, outcome.pricePrecision, outcome.tickSize, tick, PRICE_BPS_DECIMALS);
    EncodeAmountIff(item.quantity, qdp, y, outcome, step, quoteDecimals);
    if EncodePrice(item.price, outcome).Ok? && EncodeAmount(item.quantity, outcome, quoteDecimals).Ok? {
      LimitNotionalIff(item.side, price, pdp, x, item.quantity, qdp, y, outcome, minimum);
    }
  }

  /** A LIMIT order without a price, and a MARKET order with one or with a resting time in force, are refused first. */
  lemma PresenceRefusal(item: OrderItem, outcome: Outcome, quoteDecimals: nat, generated: nat)
    ensures var r := ValidateAndEncode(item, outcome, quoteDecimals, generated);
            && (item.orderType == Limit && item.price.None? ==> r == Err(MissingParameter))
            && (item.orderType == Market && item.price.Some? ==> r == Err(InvalidParameter))
            && (item.orderType == Market && item.timeInForce.Some? && item.timeInForce.value != Ioc ==>
                  r == Err(InvalidParameter))
  {
  }

  /** The steps of an accepted MARKET order. */
  lemma MarketUnfolds(item: OrderItem, outcome: Outcome, quoteDecimals: nat, generated: nat)
    requires item.orderType == Market
    ensures ValidateAndEncode(item, outcome, quoteDecimals, generated).Ok?
            <==> && item.price.None? && (item.timeInForce.None? || item.timeInForce == Some(Ioc))
                 && EncodeAmount(item.quantity, outcome, quoteDecimals).Ok?
                 && (item.side == Buy ==> NotionalMeetsMinimum("1", item.quantity, outcome.minNotional) == Ok(true))
                 && ClientIdAccepted(item.clientOrderId)
    ensures ValidateAndEncode(item, outcome, quoteDecimals, generated).Ok? ==>
              var e := ValidateAndEncode(item, outcome, quoteDecimals, generated).value;
              && e.priceRaw == "0" && AllDigits(e.amountRaw)
              && EncodeAmount(item.quantity, outcome, quoteDecimals) == Ok(Value(e.amountRaw))
  {
    ClientIdIff(item.clientOrderId, generated);
    if ValidateAndEncode(item, outcome, quoteDecimals, generated).Ok? {
      ValueOfToDigits(EncodeAmount(item.quantity, outcome, quoteDecimals).value);
    }
  }

  lemma MarketBuyIff(quantity: string, dp: nat, y: real, minimum: string, z: real)
    requires Denotes(quantity, dp, y) && dp <= MAX_DECIMAL_DIGITS && Rule(minimum, z)
    ensures NotionalMeetsMinimum("1", quantity, minimum) == Ok(y >= z)
  {
    OneIsOne();
    var mdp: nat :| Denotes(minimum, mdp, z) && mdp <= MAX_DECIMAL_DIGITS;
    DenotedNotional("1", 0, 1.0, quantity, dp, y, minimum, mdp, z);
    assert 1.0 * y == y;
  }

  /**
   A MARKET order is accepted exactly when it has no price, its amount is admissible, and a BUY spends
   the minimum.
   */
  lemma MarketAcceptedIff(
    item: OrderItem, outcome: Outcome, quoteDecimals: nat, generated: nat,
    qdp: nat, y: real, tick: real, step: real, minimum: real)
    requires item.orderType == Market && Denotes(item.quantity, qdp, y) && Rules(outcome, tick, step, minimum)
    ensures ValidateAndEncode(item, outcome, quoteDecimals, generated).Ok?
            <==> && item.price.None? && (item.timeInForce.None? || item.timeInForce == Some(Ioc))
                 && qdp <= outcome.quantityPrecision && qdp <= MAX_DECIMAL_DIGITS && qdp <= quoteDecimals
                 && IsMultiple(y, step) && AmountFits(y, quoteDecimals)
                 && (item.side == Buy ==> y >= minimum)
                 && ClientIdAccepted(item.clientOrderId)
    ensures ValidateAndEncode(item, outcome, quoteDecimals, generated).Ok? ==>
              var e := ValidateAndEncode(item, outcome, quoteDecimals, generated).value;
              e.priceRaw == "0" && AllDigits(e.amountRaw) && Scaled(Value(e.amountRaw), y, quoteDecimals)
  {
    MarketUnfolds(item, outcome, quoteDecimals, generated);
    EncodeAmountIff(item.quantity, qdp, y, outcome, step, quoteDecimals);
    if EncodeAmount(item.quantity, outcome, quoteDecimals).Ok? {
      MarketBuyIff(item.quantity, qdp, y, outcome.minNotional, minimum);
    }
  }

  /** Why a MARKET order with a readable amount is refused, once its price and time in force are in order. */
  lemma MarketRefusal(
    item: OrderItem, outcome: Outcome, quoteDecimals: nat, generated: nat,
    qdp: nat, y: real, tick: real, step: real, minimum: real)
    requires item.orderType == Market && Denotes(item.quantity, qdp, y) && Rules(outcome, tick, step, minimum)
    requires item.price.None? && (item.timeInForce.None? || item.timeInForce == Some(Ioc))
    requires ValidateAndEncode(item, outcome, quoteDecimals, generated).Err?
    ensures ValidateAndEncode(item, outcome, quoteDecimals, generated)
            == Err(if !(&& qdp <= outcome.quantityPrecision && qdp <= MAX_DECIMAL_DIGITS && qdp <= quoteDecimals
                        && IsMultiple(y, step)) then PrecisionExceeded
                   else if !AmountFits(y, quoteDecimals) || (item.side == Buy && y < minimum)
                   then OrderValidationFailed
                   else InvalidParameter)
  {
    EncodeAmountIff(item.quantity, qdp, y, outcome, step, quoteDecimals);
    if EncodeAmount(item.quantity, outcome, quoteDecimals).Ok? {
      MarketBuyIff(item.quantity, qdp, y, outcome.minNotional, minimum);
    }
  }

  /** Whatever the market's rules, only well-formed numbers are accepted, and a LIMIT order carries a price. */
  lemma AcceptedIsWellFormed(item: OrderItem, outcome: Outcome, quoteDecimals: nat, generated: nat)
    requires ValidateAndEncode(item, outcome, quoteDecimals, generated).Ok?
    ensures item.price.Some? <==> item.orderType == Limit
    ensures exists dp: nat, y: real :: Denotes(item.quantity, dp, y)
    ensures item.price.Some? ==> exists dp: nat, x: real :: Denotes(item.price.value, dp, x)
  {
    var _, _ := OnGridReads(item.quantity, outcome.quantityPrecision, outcome.stepSize, quoteDecimals);
    if item.price.Some? {
      var _, _ := OnGridReads(item.price.value, outcome.pricePrecision, outcome.tickSize, PRICE_BPS_DECIMALS);
    }
  }
}
