/** The two batch use cases: validate, look up, dispatch once or not at all. */
module BatchOrders {
  import opened Prelude
  import opened Digits
  import opened Decimal
  import opened OrderEncoding
  import opened OrderGates

  datatype MarketStatus =
    | Pending | Upcoming | Staking | AwaitingFreeze | Trading | Resolving | Resolved | Cancelled | Expired

  datatype MarketForPlacement = MarketForPlacement(
    oracleListHash: string, status: MarketStatus, outcome: Outcome, decimals: nat)

  // ---------------------------------------------------------------- placing a batch

  /** What is asked of a batch before any item is looked at. */
  predicate Placeable(orders: seq<OrderItem>, market: Result<MarketForPlacement>, maxBatchSize: nat) {
    && orders != [] && market.Ok? && market.value.status == Trading && market.value.oracleListHash != ""
    && |orders| <= maxBatchSize
  }

  /** Encodes item by item; the first failure ends the batch. */
  method EncodeItems(orders: seq<OrderItem>, generated: seq<nat>, encode: (OrderItem, nat) -> Result<EncodedOrder>)
    returns (r: Result<seq<EncodedOrder>>, submitted: seq<string>)
    requires |orders| <= |generated|
    ensures r.Ok? ==>
              && |r.value| == |submitted| == |orders|
              && forall i :: 0 <= i < |orders| ==>
                   encode(orders[i], generated[i]) == Ok(r.value[i]) && submitted[i] == r.value[i].clientOrderId
    ensures r.Err? ==>
              exists k ::
                && 0 <= k < |orders|
                && encode(orders[k], generated[k]) == Err(r.error)
                && forall i :: 0 <= i < k ==> encode(orders[i], generated[i]).Ok?
  {
    var encodedOrders: seq<EncodedOrder> := [];
    submitted := [];
    for k := 0 to |orders|
      invariant |encodedOrders| == |submitted| == k
      invariant forall i :: 0 <= i < k ==>
                  && encode(orders[i], generated[i]) == Ok(encodedOrders[i])
                  && submitted[i] == encodedOrders[i].clientOrderId
    {
      var encoded := encode(orders[k], generated[k]);
      if encoded.Err? {
        return Err(encoded.error), submitted;
      }
      submitted := submitted + [encoded.value.clientOrderId];
      encodedOrders := encodedOrders + [encoded.value];
    }
    r := Ok(encodedOrders);
  }

  /** The encoder of a market's items, given the id to use when the client supplies none. */
  function Encoder(market: MarketForPlacement): (OrderItem, nat) -> Result<EncodedOrder> {
    (item: OrderItem, id: nat) => ValidateAndEncode(item, market.outcome, market.decimals, id)
  }

  /**
   `market` is what the repository resolves, `generated` the random ids and `sent` the sender's answer.
   A dispatched batch holds every item's encoding in order; otherwise nothing is sent, and the error is that
   of the shape or of the first failing item.
   */
  method CreateBatchOrders(
    orders: seq<OrderItem>, market: Result<MarketForPlacement>, maxBatchSize: nat, generated: seq<nat>,
    sent: Result<()>)
    returns (dispatched: Option<seq<EncodedOrder>>, r: Result<seq<string>>)
    requires |orders| <= |generated|
    ensures dispatched.Some? <==>
              && Placeable(orders, market, maxBatchSize)
              && forall i :: 0 <= i < |orders| ==> Encoder(market.value)(orders[i], generated[i]).Ok?
    ensures orders == [] ==> r == Err(InvalidParameter)
    ensures orders != [] && market.Err? ==> r == Err(market.error)
    ensures orders != [] && market.Ok? && market.value.status != Trading ==> r == Err(OrderValidationFailed)
    ensures orders != [] && market.Ok? && market.value.status == Trading ==>
              && (market.value.oracleListHash == "" ==> r == Err(MarketInconsistent))
              && (market.value.oracleListHash != "" && |orders| > maxBatchSize ==> r == Err(InvalidParameter))
    ensures dispatched.None? && Placeable(orders, market, maxBatchSize) ==>
              var encode := Encoder(market.value);
              exists k ::
                && 0 <= k < |orders|
                && encode(orders[k], generated[k]).Err?
                && r == Err(encode(orders[k], generated[k]).error)
                && forall i :: 0 <= i < k ==> encode(orders[i], generated[i]).Ok?
    ensures dispatched.Some? ==>
              && |dispatched.value| == |orders|
              && forall i :: 0 <= i < |orders| ==>
                   Encoder(market.value)(orders[i], generated[i]) == Ok(dispatched.value[i])
    ensures dispatched.Some? ==>
              if sent.Err? then r == Err(sent.error)
              else r.Ok? && |r.value| == |orders| &&
                   forall i :: 0 <= i < |orders| ==> r.value[i] == dispatched.value[i].clientOrderId
    ensures r.Ok? ==>
              forall i :: 0 <= i < |orders| ==>
                if orders[i].clientOrderId.Some? then r.value[i] == orders[i].clientOrderId.value
                else AllDigits(r.value[i]) && Value(r.value[i]) == generated[i]
  {
    if orders == [] {
      return None, Err(InvalidParameter);
    }
    if market.Err? {
      return None, Err(market.error);
    }
    if market.value.status != Trading {
      return None, Err(OrderValidationFailed);
    }
    if market.value.oracleListHash == "" {
      return None, Err(MarketInconsistent);
    }
    if |orders| > maxBatchSize {
      return None, Err(InvalidParameter);
    }
    var encodedOrders, submitted := EncodeItems(orders, generated, Encoder(market.value));
    if encodedOrders.Err? {
      return None, Err(encodedOrders.error);
    }
    dispatched := Some(encodedOrders.value);
    SubmittedIdsAreTheClients(orders, market.value, generated, encodedOrders.value);
    r := if sent.Err? then Err(sent.error) else Ok(submitted);
  }

  lemma SubmittedIdsAreTheClients(
    orders: seq<OrderItem>, market: MarketForPlacement, generated: seq<nat>, encoded: seq<EncodedOrder>)
    requires |encoded| == |orders| <= |generated|
    requires forall i :: 0 <= i < |orders| ==> Encoder(market)(orders[i], generated[i]) == Ok(encoded[i])
    ensures forall i :: 0 <= i < |orders| ==>
              if orders[i].clientOrderId.Some? then encoded[i].clientOrderId == orders[i].clientOrderId.value
              else AllDigits(encoded[i].clientOrderId) && Value(encoded[i].clientOrderId) == generated[i]
  {
    forall i | 0 <= i < |orders|
      ensures if orders[i].clientOrderId.Some? then encoded[i].clientOrderId == orders[i].clientOrderId.value
              else AllDigits(encoded[i].clientOrderId) && Value(encoded[i].clientOrderId) == generated[i]
    {
      assert Encoder(market)(orders[i], generated[i]) == Ok(encoded[i]);
      ValueOfToDigits(generated[i]);
    }
  }

  /** Every LIMIT order of a dispatched batch is on the chain's lattice. */
  lemma DispatchedLimitsAreOnLattice(
    orders: seq<OrderItem>, market: MarketForPlacement, generated: seq<nat>, dispatched: seq<EncodedOrder>,
    tick: nat, lot: nat, minimum: nat)
    requires |dispatched| == |orders| <= |generated|
    requires forall i :: 0 <= i < |orders| ==> Encoder(market)(orders[i], generated[i]) == Ok(dispatched[i])
    requires ChainRules(market.outcome, market.decimals, tick, lot, minimum)
    ensures forall i :: 0 <= i < |orders| && orders[i].orderType == Limit ==>
              && AllDigits(dispatched[i].priceRaw) && AllDigits(dispatched[i].amountRaw)
              && OnLattice(Value(dispatched[i].priceRaw), Value(dispatched[i].amountRaw), tick, lot, minimum)
  {
    forall i | 0 <= i < |orders| && orders[i].orderType == Limit
      ensures AllDigits(dispatched[i].priceRaw) && AllDigits(dispatched[i].amountRaw)
      ensures OnLattice(Value(dispatched[i].priceRaw), Value(dispatched[i].amountRaw), tick, lot, minimum)
    {
      assert Encoder(market)(orders[i], generated[i]) == Ok(dispatched[i]);
      AcceptedLimitIsOnLattice(
        orders[i], market.outcome, market.decimals, generated[i], dispatched[i], tick, lot, minimum);
    }
  }

  // ---------------------------------------------------------------- cancelling a batch

  datatype CancelItem = CancelItem(orderId: nat, clientOrderId: Option<string>)

  /** What the bulk lookup found: the matched orders by id, and the market they belong to. */
  datatype CancelResolution = CancelResolution(
    oracleListHash: string, tokenType: int, marketStatus: MarketStatus, orders: map<nat, Option<string>>)

  /** What the bulk lookup owes its caller. */
  predicate KeysFromInput(found: map<nat, Option<string>>, ids: seq<nat>) {
    forall id :: id in found ==> id in ids
  }

  /** What is asked of a batch before the bulk lookup. */
  predicate Askable(ids: seq<nat>, status: Result<MarketStatus>, maxBatchSize: nat) {
    ids != [] && status == Ok(Trading) && |ids| <= maxBatchSize && Distinct(ids)
  }

  /** The bulk lookup found a row for as many ids as were asked for. */
  predicate Resolved(ids: seq<nat>, lookup: Result<Option<CancelResolution>>) {
    lookup.Ok? && lookup.value.Some? && |lookup.value.value.orders| >= |ids|
  }

  /** It found them in a market that trades, with a hash and a token type of 32 bits. */
  predicate Dispatchable(found: CancelResolution) {
    found.marketStatus == Trading && found.oracleListHash != "" && found.tokenType >= 0
  }

  function Items(ids: seq<nat>, found: map<nat, Option<string>>): (items: seq<CancelItem>)
    requires forall i :: 0 <= i < |ids| ==> ids[i] in found
    ensures |items| == |ids|
    ensures forall i :: 0 <= i < |ids| ==> items[i].orderId == ids[i] && items[i].clientOrderId == found[ids[i]]
  {
    seq(|ids|, i requires 0 <= i < |ids| => CancelItem(ids[i], found[ids[i]]))
  }

  /** A subset at least as large as the whole is the whole. */
  lemma {:induction false} FullSubset(part: set<nat>, whole: set<nat>)
    requires part <= whole && |part| >= |whole|
    ensures part == whole
  {
    if part != {} {
      var x :| x in part;
      FullSubset(part - {x}, whole - {x});
      assert part == (part - {x}) + {x} && whole == (whole - {x}) + {x};
    }
  }

  function Members(ids: seq<nat>): set<nat> {
    set id | id in ids
  }

  lemma {:induction false} DistinctCount(ids: seq<nat>)
    requires Distinct(ids)
    ensures |Members(ids)| == |ids|
  {
    if ids != [] {
      var last, rest := ids[|ids| - 1], ids[..|ids| - 1];
      DistinctCount(rest);
      assert last !in rest;
      assert Members(ids) == Members(rest) + {last};
    }
  }

  /** By pigeonhole, distinct ids and no shortfall leave no id without a row. */
  lemma NoIdIsMissing(ids: seq<nat>, found: map<nat, Option<string>>)
    requires Distinct(ids) && KeysFromInput(found, ids) && |found| >= |ids|
    ensures forall i :: 0 <= i < |ids| ==> ids[i] in found
    ensures found.Keys == Members(ids)
  {
    DistinctCount(ids);
    assert |found.Keys| == |found|;
    FullSubset(found.Keys, Members(ids));
    assert forall i :: 0 <= i < |ids| ==> ids[i] in Members(ids);
  }

  /** The duplicate check: inserting each id into a set of those seen. */
  method HasDuplicate(ids: seq<nat>) returns (duplicate: bool)
    ensures duplicate <==> !Distinct(ids)
  {
    var seen: set<nat> := {};
    for k := 0 to |ids|
      invariant seen == set i | 0 <= i < k :: ids[i]
      invariant Distinct(ids[..k])
    {
      if ids[k] in seen {
        return true;
      }
      seen := seen + {ids[k]};
    }
    assert ids[..|ids|] == ids;
    return false;
  }

  /** The draining lookup: each id is removed from the map as it is used. The first missing id fails the batch. */
  method DrainLookup(ids: seq<nat>, found: map<nat, Option<string>>) returns (r: Result<seq<CancelItem>>)
    requires Distinct(ids)
    ensures r.Ok? <==> forall i :: 0 <= i < |ids| ==> ids[i] in found
    ensures r.Ok? ==> r.value == Items(ids, found)
    ensures r.Err? ==> r == Err(MarketInconsistent)
  {
    var orders := found;
    var items: seq<CancelItem> := [];
    for k := 0 to |ids|
      invariant |items| == k
      invariant forall i :: 0 <= i < k ==> ids[i] in found && items[i] == CancelItem(ids[i], found[ids[i]])
      invariant orders == map id | id in found && id !in ids[..k] :: found[id]
    {
      assert ids[k] !in ids[..k];
      if ids[k] !in orders {
        return Err(MarketInconsistent);
      }
      items := items + [CancelItem(ids[k], orders[ids[k]])];
      orders := orders - {ids[k]};
    }
    return Ok(items);
  }

  /**
   `status` and `lookup` are what the repository resolves, `sent` the sender's answer. A batch is dispatched
   only as a whole: exactly the ids asked for, in the order asked for, each with the client id of its row, and
   the response is the same list. With a lookup that keeps its contract no id can be missing at this point.
   */
  method CancelBatchOrders(
    ids: seq<nat>, status: Result<MarketStatus>, maxBatchSize: nat, lookup: Result<Option<CancelResolution>>,
    sent: Result<()>)
    returns (dispatched: Option<seq<CancelItem>>, r: Result<seq<CancelItem>>)
    ensures ids == [] ==> r == Err(InvalidParameter)
    ensures ids != [] && status.Err? ==> r == Err(status.error)
    ensures ids != [] && status.Ok? && status.value != Trading ==> r == Err(OrderValidationFailed)
    ensures ids != [] && status == Ok(Trading) && (|ids| > maxBatchSize || !Distinct(ids)) ==>
              r == Err(InvalidParameter)
    ensures Askable(ids, status, maxBatchSize) && lookup.Err? ==> r == Err(lookup.error)
    ensures Askable(ids, status, maxBatchSize) && lookup.Ok? && !Resolved(ids, lookup) ==> r == Err(UnknownOrder)
    ensures Askable(ids, status, maxBatchSize) && Resolved(ids, lookup) && !Dispatchable(lookup.value.value) ==>
              r == Err(if lookup.value.value.marketStatus != Trading then OrderValidationFailed else MarketInconsistent)
    ensures dispatched.Some? <==>
              && Askable(ids, status, maxBatchSize) && Resolved(ids, lookup) && Dispatchable(lookup.value.value)
              && forall i :: 0 <= i < |ids| ==> ids[i] in lookup.value.value.orders
    ensures dispatched.Some? ==>
              var items := Items(ids, lookup.value.value.orders);
              dispatched == Some(items) && r == if sent.Err? then Err(sent.error) else Ok(items)
    ensures Askable(ids, status, maxBatchSize) && Resolved(ids, lookup) && Dispatchable(lookup.value.value) ==>
              && (dispatched.None? ==> r == Err(MarketInconsistent))
              && (KeysFromInput(lookup.value.value.orders, ids) ==> dispatched.Some?)
  {
    if ids == [] {
      return None, Err(InvalidParameter);
    }
    if status.Err? {
      return None, Err(status.error);
    }
    if status.value != Trading {
      return None, Err(OrderValidationFailed);
    }
    if |ids| > maxBatchSize {
      return None, Err(InvalidParameter);
    }
    var duplicate := HasDuplicate(ids);
    if duplicate {
      return None, Err(InvalidParameter);
    }
    if lookup.Err? {
      return None, Err(lookup.error);
    }
    if lookup.value.None? {
      return None, Err(UnknownOrder);
    }
    var found := lookup.value.value;
    if |found.orders| < |ids| {
      return None, Err(UnknownOrder);
    }
    if found.marketStatus != Trading {
      return None, Err(OrderValidationFailed);
    }
    if found.oracleListHash == "" {
      return None, Err(MarketInconsistent);
    }
    if found.tokenType < 0 {
      return None, Err(MarketInconsistent);
    }
    if KeysFromInput(found.orders, ids) {
      NoIdIsMissing(ids, found.orders);
    }
    var items := DrainLookup(ids, found.orders);
    if items.Err? {
      return None, Err(items.error);
    }
    dispatched := Some(items.value);
    r := if sent.Err? then Err(sent.error) else Ok(items.value);
  }
}
