/** What local acceptance of an order guarantees about the note contract's own gates. */
module OrderGates {
  import opened Prelude
  import opened Digits
  import opened Decimal
  import opened DecimalMeaning
  import opened DecimalRoundTrip
  import opened OrderEncoding

  const FULL_PERCENT: nat := 10000
  const U128_MAX: nat := 0xFFFF_FFFF_FFFF_FFFF_FFFF_FFFF_FFFF_FFFF
  const U256_MAX: nat := U128_MAX * U128_MAX + 2 * U128_MAX

  /** The flag bit with weight `mask`, as the chain reads it. */
  predicate Bit(flags: nat, mask: nat)
    requires mask > 0
  {
    (flags / mask) % 2 == 1
  }

  /** Value of an order in quote atoms, rounded down. */
  function Notional(amount: nat, price: nat): nat {
    (amount * price) / FULL_PERCENT
  }

  /** The size gates of `PrivateNote.placeOrder`; the sender always passes a zero minimum fill. */
  predicate NoteAccepts(flags: nat, isBuy: bool, price: nat, amount: nat, tick: nat, lot: nat, minimum: nat)
    requires tick > 0 && lot > 0
  {
    && amount > 0
    && if Bit(flags, FLAG_MARKET) then isBuy ==> amount >= minimum
       else
         && amount % lot == 0
         && price % tick == 0
         && (price == 0 || amount <= U256_MAX / price)
         && Notional(amount, price) <= U128_MAX
         && Notional(amount, price) >= minimum
  }

  /** The market's rules at the chain's scales. */
  predicate ChainRules(outcome: Outcome, quoteDecimals: nat, tick: nat, lot: nat, minimum: nat) {
    && LiftDecimal(outcome.tickSize, PRICE_BPS_DECIMALS) == Ok(tick)
    && LiftDecimal(outcome.stepSize, quoteDecimals) == Ok(lot)
    && LiftDecimal(outcome.minNotional, quoteDecimals) == Ok(minimum)
  }

  // ---------------------------------------------------------------- numbers

  /** The exact notional bound survives the chain's floor division. */
  lemma NotionalFloor(price: nat, x: real, amount: nat, y: real, minimum: nat, z: real, scale: nat)
    requires Scaled(price, x, PRICE_BPS_DECIMALS) && Scaled(amount, y, scale) && Scaled(minimum, z, scale)
    requires NotionalAtLeast(x, y, z)
    ensures Notional(amount, price) >= minimum
  {
  }

  /** A notional of 128 bits also passes the 256-bit overflow guard. */
  lemma SmallNotionalDoesNotOverflow(amount: nat, price: nat)
    requires Notional(amount, price) <= U128_MAX && price > 0
    ensures amount <= U256_MAX / price
  {
    var n := amount * price;
    assert n < (U128_MAX + 1) * FULL_PERCENT;
    QuotientBound(amount, price, U256_MAX);
  }

  lemma QuotientBound(amount: nat, price: nat, bound: nat)
    requires price > 0 && amount * price <= bound
    ensures amount <= bound / price
  {
    var q, r := bound / price, bound % price;
    assert bound == q * price + r;
    assert bound < (q + 1) * price;
    assert amount <= q by {
      if amount > q {
        MulMono(q + 1, amount, price);
      }
    }
  }

  // ---------------------------------------------------------------- what acceptance says about the rules

  lemma AcceptedGrid(text: string, precision: nat, step: string, scale: nat) returns (y: real)
    requires OnGrid(text, precision, step, scale).Ok?
    ensures Rule(step, y) && y != 0.0
  {
    ParsesIffDenotes(text, MAX_DECIMAL_DIGITS);
    ParsesIffDenotes(step, MAX_DECIMAL_DIGITS);
    var dp: nat, x: real :| Denotes(text, dp, x) && dp <= MAX_DECIMAL_DIGITS;
    var sdp: nat, s: real :| Denotes(step, sdp, s) && sdp <= MAX_DECIMAL_DIGITS;
    DenotedMultiple(text, dp, x, step, sdp, s);
    y := s;
  }

  lemma AcceptedMinimum(price: string, quantity: string, minimum: string) returns (z: real)
    requires NotionalMeetsMinimum(price, quantity, minimum).Ok?
    ensures Rule(minimum, z)
  {
    ParsesIffDenotes(minimum, MAX_DECIMAL_DIGITS);
    var dp: nat, x: real :| Denotes(minimum, dp, x) && dp <= MAX_DECIMAL_DIGITS;
    z := x;
  }

  /** A rule that fits a chain scale is that rule's value there. */
  lemma RuleAtScale(text: string, y: real, scale: nat, n: nat)
    requires Rule(text, y) && LiftDecimal(text, scale) == Ok(n)
    ensures Scaled(n, y, scale)
  {
    var dp: nat :| Denotes(text, dp, y) && dp <= MAX_DECIMAL_DIGITS;
    DenotedPrecision(text, dp, y, scale);
    DenotedLifts(text, dp, y);
  }

  /** A multiple of a rule is a multiple of the rule's integer. */
  lemma GridAtScale(n: nat, x: real, step: string, y: real, scale: nat, s: nat)
    requires Scaled(n, x, scale) && Rule(step, y) && y != 0.0 && LiftDecimal(step, scale) == Ok(s)
    requires IsMultiple(x, y)
    ensures s > 0 && n % s == 0
  {
    RuleAtScale(step, y, scale, s);
    ScaledOrder(s, y, 0, 0.0, scale);
    ScaledMultiple(n, x, s, y, scale);
  }

  // ---------------------------------------------------------------- the gates

  lemma LimitNumbers(
    item: OrderItem, outcome: Outcome, quoteDecimals: nat, generated: nat, e: EncodedOrder)
    returns (x: real, y: real, tick: real, step: real, minimum: real)
    requires item.orderType == Limit && ValidateAndEncode(item, outcome, quoteDecimals, generated) == Ok(e)
    ensures AllDigits(e.priceRaw) && Scaled(Value(e.priceRaw), x, PRICE_BPS_DECIMALS)
    ensures AllDigits(e.amountRaw) && Scaled(Value(e.amountRaw), y, quoteDecimals)
    ensures Rules(outcome, tick, step, minimum)
    ensures IsMultiple(x, tick) && IsMultiple(y, step) && AmountFits(y, quoteDecimals)
    ensures NotionalAtLeast(x, y, minimum)
  {
    var price, qdp, pdp := item.price.value, 0, 0;
    LimitUnfolds(item, outcome, quoteDecimals, generated);
    pdp, x := OnGridReads(price, outcome.pricePrecision, outcome.tickSize, PRICE_BPS_DECIMALS);
    qdp, y := OnGridReads(item.quantity, outcome.quantityPrecision, outcome.stepSize, quoteDecimals);
    tick := AcceptedGrid(price, outcome.pricePrecision, outcome.tickSize, PRICE_BPS_DECIMALS);
    step := AcceptedGrid(item.quantity, outcome.quantityPrecision, outcome.stepSize, quoteDecimals);
    minimum := AcceptedMinimum(price, item.quantity, outcome.minNotional);
    LimitAcceptedIff(item, outcome, quoteDecimals, generated, pdp, x, qdp, y, tick, step, minimum);
  }

  /** An order on the chain's lattice: on both grids, of admitted size, worth at least the minimum. */
  predicate OnLattice(price: nat, amount: nat, tick: nat, lot: nat, minimum: nat) {
    && tick > 0 && lot > 0
    && price % tick == 0 && amount % lot == 0
    && 1 <= amount <= U64_MAX
    && Notional(amount, price) >= minimum
  }

  lemma NumbersOnLattice(
    price: nat, x: real, amount: nat, y: real, outcome: Outcome, t: real, s: real, m: real,
    quoteDecimals: nat, tick: nat, lot: nat, minimum: nat)
    requires Scaled(price, x, PRICE_BPS_DECIMALS) && Scaled(amount, y, quoteDecimals)
    requires Rules(outcome, t, s, m) && ChainRules(outcome, quoteDecimals, tick, lot, minimum)
    requires IsMultiple(x, t) && IsMultiple(y, s) && AmountFits(y, quoteDecimals) && NotionalAtLeast(x, y, m)
    ensures OnLattice(price, amount, tick, lot, minimum)
  {
    assert tick > 0 && price % tick == 0 by {
      GridAtScale(price, x, outcome.tickSize, t, PRICE_BPS_DECIMALS, tick);
    }
    assert lot > 0 && amount % lot == 0 by {
      GridAtScale(amount, y, outcome.stepSize, s, quoteDecimals, lot);
    }
    assert 1 <= amount <= U64_MAX by {
      AmountRange(amount, y, quoteDecimals);
    }
    assert Notional(amount, price) >= minimum by {
      RuleAtScale(outcome.minNotional, m, quoteDecimals, minimum);
      NotionalFloor(price, x, amount, y, minimum, m, quoteDecimals);
    }
  }

  /** An accepted LIMIT order whose market rules fit the chain's scales is on the chain's lattice. */
  lemma AcceptedLimitIsOnLattice(
    item: OrderItem, outcome: Outcome, quoteDecimals: nat, generated: nat, e: EncodedOrder,
    tick: nat, lot: nat, minimum: nat)
    requires item.orderType == Limit && ValidateAndEncode(item, outcome, quoteDecimals, generated) == Ok(e)
    requires ChainRules(outcome, quoteDecimals, tick, lot, minimum)
    ensures AllDigits(e.priceRaw) && AllDigits(e.amountRaw)
    ensures OnLattice(Value(e.priceRaw), Value(e.amountRaw), tick, lot, minimum)
  {
    var x, y, t, s, m := LimitNumbers(item, outcome, quoteDecimals, generated, e);
    NumbersOnLattice(
      Value(e.priceRaw), x, Value(e.amountRaw), y, outcome, t, s, m, quoteDecimals, tick, lot, minimum);
  }

  lemma LatticePassesIff(flags: nat, isBuy: bool, price: nat, amount: nat, tick: nat, lot: nat, minimum: nat)
    requires OnLattice(price, amount, tick, lot, minimum) && !Bit(flags, FLAG_MARKET)
    ensures NoteAccepts(flags, isBuy, price, amount, tick, lot, minimum) <==> Notional(amount, price) <= U128_MAX
  {
    if price > 0 && Notional(amount, price) <= U128_MAX {
      SmallNotionalDoesNotOverflow(amount, price);
    }
  }

  /** The chain reads back exactly the type and the time in force; only MARKET with another one than IOC is refused. */
  lemma FlagsTellTheType(orderType: OrderType, timeInForce: Option<TimeInForce>)
    ensures EncodeOrderFlags(orderType, timeInForce).Err? <==>
              orderType == Market && timeInForce.Some? && timeInForce.value != Ioc
    ensures EncodeOrderFlags(orderType, timeInForce).Ok? ==>
              var flags := EncodeOrderFlags(orderType, timeInForce).value;
              && flags < 16
              && (Bit(flags, 1) <==> orderType == Limit && timeInForce == Some(Ioc))
              && (Bit(flags, 2) <==> orderType == Limit && timeInForce == Some(Fok))
              && (Bit(flags, 4) <==> orderType == Market)
              && (Bit(flags, 8) <==> orderType == Limit && timeInForce == Some(PostOnly))
  {
  }

  /** Nothing local bounds the notional: the note takes an accepted LIMIT order exactly when that fits 128 bits. */
  lemma AcceptedLimitPassesIffNotionalFits(
    item: OrderItem, outcome: Outcome, quoteDecimals: nat, generated: nat, e: EncodedOrder,
    tick: nat, lot: nat, minimum: nat)
    requires item.orderType == Limit && ValidateAndEncode(item, outcome, quoteDecimals, generated) == Ok(e)
    requires ChainRules(outcome, quoteDecimals, tick, lot, minimum)
    ensures AllDigits(e.priceRaw) && AllDigits(e.amountRaw) && tick > 0 && lot > 0
    ensures NoteAccepts(e.flags, e.isBuy, Value(e.priceRaw), Value(e.amountRaw), tick, lot, minimum)
            <==> Notional(Value(e.amountRaw), Value(e.priceRaw)) <= U128_MAX
  {
    AcceptedLimitIsOnLattice(item, outcome, quoteDecimals, generated, e, tick, lot, minimum);
    FlagsTellTheType(item.orderType, item.timeInForce);
    LatticePassesIff(e.flags, e.isBuy, Value(e.priceRaw), Value(e.amountRaw), tick, lot, minimum);
  }

  lemma WholePriceIsAdmissible(outcome: Outcome, n: nat)
    requires n > 0 && outcome == Outcome(0, 0, 0, "1", "1", "1")
    ensures LimitAdmissible(outcome, 0, 0, n as real, 0, 1.0, 1.0, 1.0, 1.0)
  {
    assert n as real == Times(n, 1.0) && 1.0 == Times(1, 1.0);
    assert Pow10(0) == 1;
  }

  /** The unbounded case does occur: on a market of unit rules every whole price is accepted. */
  lemma WholePriceAccepted(item: OrderItem, outcome: Outcome, n: nat, generated: nat) returns (e: EncodedOrder)
    requires n > 0 && item == OrderItem(Buy, "1", Some(ToDigits(n)), Limit, None, None)
    requires outcome == Outcome(0, 0, 0, "1", "1", "1")
    ensures ValidateAndEncode(item, outcome, 0, generated) == Ok(e)
    ensures AllDigits(e.priceRaw) && Scaled(Value(e.priceRaw), n as real, PRICE_BPS_DECIMALS)
    ensures AllDigits(e.amountRaw) && Scaled(Value(e.amountRaw), 1.0, 0)
  {
    WholeNumber(n);
    OneIsOne();
    UnitRules(outcome);
    WholePriceIsAdmissible(outcome, n);
    LimitAcceptedIff(item, outcome, 0, generated, 0, n as real, 0, 1.0, 1.0, 1.0, 1.0);
    e := ValidateAndEncode(item, outcome, 0, generated).value;
  }

  /** So an order worth more than 2^128 is accepted here and refused by the note. */
  lemma AcceptedLimitCanBeRefused(n: nat, generated: nat) returns (item: OrderItem, outcome: Outcome, e: EncodedOrder)
    requires n > U128_MAX
    ensures item.orderType == Limit && ValidateAndEncode(item, outcome, 0, generated) == Ok(e)
    ensures ChainRules(outcome, 0, 10000, 1, 1)
    ensures AllDigits(e.priceRaw) && AllDigits(e.amountRaw)
    ensures !NoteAccepts(e.flags, e.isBuy, Value(e.priceRaw), Value(e.amountRaw), 10000, 1, 1)
  {
    item := OrderItem(Buy, "1", Some(ToDigits(n)), Limit, None, None);
    outcome := Outcome(0, 0, 0, "1", "1", "1");
    e := WholePriceAccepted(item, outcome, n, generated);
    UnitRules(outcome);
    ExceedsNote(Value(e.priceRaw), n as real, Value(e.amountRaw), n);
    AcceptedLimitPassesIffNotionalFits(item, outcome, 0, generated, e, 10000, 1, 1);
  }

  lemma ExceedsNote(price: nat, x: real, amount: nat, n: nat)
    requires Scaled(price, x, PRICE_BPS_DECIMALS) && Scaled(amount, 1.0, 0) && x == n as real
    ensures Notional(amount, price) == n
  {
  }

  lemma UnitRules(outcome: Outcome)
    requires outcome.tickSize == "1" && outcome.stepSize == "1" && outcome.minNotional == "1"
    ensures Rules(outcome, 1.0, 1.0, 1.0) && ChainRules(outcome, 0, 10000, 1, 1)
  {
    OneIsOne();
    assert Rule("1", 1.0);
    DenotedLifts("1", 0, 1.0);
    UnitLift(0, 1);
    UnitLift(4, 10000);
  }

  lemma UnitLift(scale: nat, n: nat)
    requires n == Pow10(scale)
    ensures LiftDecimal("1", scale) == Ok(n)
  {
    OneIsOne();
    DenotedLifts("1", 0, 1.0);
    assert LiftDecimal("1", scale).value as real == 1.0 * Pow10(scale) as real;
  }

  lemma BuyCoversMinimum(quantity: string, outcome: Outcome, quoteDecimals: nat, amount: nat, minimum: nat)
    requires EncodeAmount(quantity, outcome, quoteDecimals) == Ok(amount)
    requires NotionalMeetsMinimum("1", quantity, outcome.minNotional) == Ok(true)
    requires LiftDecimal(outcome.minNotional, quoteDecimals) == Ok(minimum)
    ensures amount >= minimum
  {
    var dp, y := OnGridReads(quantity, outcome.quantityPrecision, outcome.stepSize, quoteDecimals);
    var s := AcceptedGrid(quantity, outcome.quantityPrecision, outcome.stepSize, quoteDecimals);
    var z := AcceptedMinimum("1", quantity, outcome.minNotional);
    EncodeAmountIff(quantity, dp, y, outcome, s, quoteDecimals);
    assert y >= z by {
      MarketBuyIff(quantity, dp, y, outcome.minNotional, z);
    }
    RuleAtScale(outcome.minNotional, z, quoteDecimals, minimum);
    ScaledOrder(amount, y, minimum, z, quoteDecimals);
  }

  /** Every accepted MARKET order passes the note's gates. */
  lemma AcceptedMarketPasses(
    item: OrderItem, outcome: Outcome, quoteDecimals: nat, generated: nat, e: EncodedOrder,
    tick: nat, lot: nat, minimum: nat)
    requires item.orderType == Market && ValidateAndEncode(item, outcome, quoteDecimals, generated) == Ok(e)
    requires LiftDecimal(outcome.minNotional, quoteDecimals) == Ok(minimum) && tick > 0 && lot > 0
    ensures AllDigits(e.amountRaw) && AllDigits(e.priceRaw)
    ensures 1 <= Value(e.amountRaw) <= U64_MAX
    ensures NoteAccepts(e.flags, e.isBuy, Value(e.priceRaw), Value(e.amountRaw), tick, lot, minimum)
  {
    MarketUnfolds(item, outcome, quoteDecimals, generated);
    FlagsTellTheType(item.orderType, item.timeInForce);
    if item.side == Buy {
      BuyCoversMinimum(item.quantity, outcome, quoteDecimals, Value(e.amountRaw), minimum);
    }
  }
}
