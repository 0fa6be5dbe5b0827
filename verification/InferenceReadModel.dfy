/** The inference tables as mutable fields, and the handlers that update them in place. */
module InferenceReadModel {
  import opened Prelude
  import opened InferenceModel
  import opened InferenceRuns
  import opened InferenceColumns

  /** The fill's CASE expressions, column by column, each branching on the row as it was. */
  method FillColumns(o: Order, ticks: nat, at: Stamp) returns (r: Order)
    ensures TakesFill(o, ticks, at, r) && r == FillRow(o, ticks, at)
  {
    FillRowShows(o, ticks, at);
    var realCancel := o.status == Cancelled && !o.swept;
    var decremented := if o.remaining >= ticks then o.remaining - ticks else 0;
    var remaining :=
      if o.status == Filled then o.remaining
      else if realCancel then o.remaining
      else decremented;
    var status :=
      if o.status == Filled then Filled
      else if realCancel then Cancelled
      else if !o.isBuy then Filled
      else if decremented == 0 then Filled
      else Open;
    var swept :=
      if o.status == Filled then o.swept
      else if realCancel then o.swept
      else false;
    var lastChainOrder :=
      if o.status == Filled || realCancel then o.lastChainOrder else Greatest(o.lastChainOrder, at.order);
    var chainUpdatedAt :=
      if o.status == Filled || realCancel then o.chainUpdatedAt else GreatestOpt(o.chainUpdatedAt, at.time);
    r := Order(o.isBuy, o.price, o.initial, remaining, o.isSubscription, o.note, o.tokenContract, o.deadline,
               status, swept, lastChainOrder, o.chainCreatedAt, chainUpdatedAt);
  }

  method LinkColumns(d: Deal, book: Address, seller: Option<Address>, buyer: Option<Address>, order: ChainOrder)
    returns (r: Deal)
    ensures Linked(d, r, book, seller, buyer, order) && r == LinkRow(d, book, seller, buyer, order)
  {
    r := d;
    if d.book.None? {
      r := r.(book := Some(book));
    }
    if d.sellerNote.None? {
      r := r.(sellerNote := seller);
    }
    if d.lastChainOrder.None? || order > d.lastChainOrder.value {
      r := r.(buyerNote := if buyer.Some? then buyer else d.buyerNote, lastChainOrder := Some(order));
    } else if d.buyerNote.None? {
      r := r.(buyerNote := buyer);
    }
  }

  class ReadModel {
    var orders: map<OrderKey, Order>
    var markets: map<Address, Market>
    var deals: map<Address, Deal>
    var trades: map<ChainOrder, Trade>

    constructor ()
      ensures Snapshot() == Tables(map[], map[], map[], map[])
    {
      orders, markets, deals, trades := map[], map[], map[], map[];
    }

    ghost function Snapshot(): Tables
      reads this
    {
      Tables(orders, markets, deals, trades)
    }

    /** A market row exists afterwards; only a missing one is written, as an unreconciled skeleton. */
    method SeedMarketSkeleton(book: Address, time: Option<Seconds>)
      modifies this`markets
      ensures markets.Keys == old(markets).Keys + {book}
      ensures forall m :: m in old(markets) ==> markets[m] == old(markets)[m]
      ensures book !in old(markets) ==>
                var m := markets[book];
                m.createdAt == time && !m.reconciled && m.sweepCursor.None? && m.overrideSeq == 0
      ensures Snapshot() == SeedMarket(old(Snapshot()), book, time)
    {
      if book !in markets {
        markets := markets[book := Market(time, false, None, 0)];
      }
    }

    method UpsertRestingOrder(k: OrderKey, p: Placement, at: Stamp) returns (refused: bool)
      modifies this`orders
      ensures orders == Upsert(old(orders), k, p, at)
      ensures refused <==>
                && k in old(orders)
                && var o := old(orders)[k]; o.status == Filled || o.status == Cancelled || o.remaining != o.initial
      ensures refused ==> orders == old(orders)
    {
      refused := false;
      if k !in orders {
        orders := orders[k := FreshRow(p, at)];
      } else {
        var o := orders[k];
        if o.status == Filled || o.status == Cancelled || o.remaining != o.initial {
          refused := true;
        } else {
          o := o.(isBuy := p.isBuy, price := p.price, initial := p.ticks, remaining := p.ticks);
          o := o.(isSubscription := p.isSubscription, note := p.note, status := Open);
          if p.tokenContract.Some? {
            o := o.(tokenContract := p.tokenContract);
          }
          if p.deadline.Some? {
            o := o.(deadline := p.deadline);
          }
          if o.chainCreatedAt.None? {
            o := o.(chainCreatedAt := at.time);
          }
          o := o.(lastChainOrder := Greatest(o.lastChainOrder, at.order),
                  chainUpdatedAt := GreatestOpt(o.chainUpdatedAt, at.time));
          orders := orders[k := o];
        }
      }
    }

    method ApplyOrderPlaced(book: Address, id: nat, p: Placement, at: Stamp)
      modifies this
      ensures Snapshot() == ApplyPlaced(old(Snapshot()), book, id, p, at)
      ensures forall tc :: tc in old(deals) ==>
                && tc in deals
                && var was := old(deals)[tc];
                   if && !p.isBuy && p.tokenContract == Some(tc) && was.deposit.Some?
                      && (was.lastChainOrder.Some? ==> at.order > was.lastChainOrder.value)
                   then deals[tc] == Deal(was.book, was.sellerNote, None, None, Some(at.order))
                   else deals[tc] == was
    {
      var refused := UpsertRestingOrder(OrderKey(book, id), p, at);
      if !p.isBuy && p.tokenContract.Some? {
        var tc := p.tokenContract.value;
        if tc in deals && deals[tc].deposit.Some? && LaterThan(at.order, deals[tc].lastChainOrder) {
          deals := deals[tc := deals[tc].(buyerNote := None, deposit := None, lastChainOrder := Some(at.order))];
        }
      }
    }

    /** The per-row CASE of the fill, on whichever named rows exist. */
    method ApplyFilledDecrement(book: Address, f: Fill, at: Stamp)
      modifies this`orders, this`markets
      ensures Snapshot() == ApplyDecrement(old(Snapshot()), book, f, at)
    {
      var maker, taker := OrderKey(book, f.makerId), OrderKey(book, f.takerId);
      var anySweepOverride := (maker in orders && orders[maker].swept) || (taker in orders && orders[taker].swept);
      assert anySweepOverride <==> AnyLegSwept(orders, book, f) by {
        assert maker in Legs(book, f) && taker in Legs(book, f);
      }
      if maker in orders {
        var filled := FillColumns(orders[maker], f.ticks, at);
        orders := orders[maker := filled];
      }
      if taker in orders && taker != maker {
        var filled := FillColumns(orders[taker], f.ticks, at);
        orders := orders[taker := filled];
      }
      assert orders == DecrementLegs(old(orders), book, f, at);
      if anySweepOverride && book in markets && !markets[book].reconciled {
        markets := markets[book := markets[book].(sweepCursor := None, overrideSeq := markets[book].overrideSeq + 1)];
      }
    }

    /** The deal row of the fill's token contract is written or linked; every other deal is untouched. */
    method LinkDealFromFilled(book: Address, f: Fill, at: Stamp)
      modifies this`deals
      ensures DealsAfterFill(old(deals), deals, SellerNote(orders, book, f), book, f, at.order)
      ensures Snapshot() == LinkDeal(old(Snapshot()), book, f, at)
    {
      if f.sellerTc.None? {
        return;
      }
      var tc, maker, taker := f.sellerTc.value, OrderKey(book, f.makerId), OrderKey(book, f.takerId);
      var seller: Option<Address> := None;
      if maker in orders && !orders[maker].isBuy {
        seller := orders[maker].note;
      } else if taker in orders && !orders[taker].isBuy {
        seller := orders[taker].note;
      }
      var row := Deal(Some(book), seller, f.buyerNote, None, Some(at.order));
      if tc in deals {
        row := LinkColumns(deals[tc], book, seller, f.buyerNote, at.order);
      }
      deals := deals[tc := row];
    }

    /** A match is written once; an existing row keeps its columns, and only a missing time is filled in. */
    method AppendInferenceTrade(book: Address, f: Fill, at: Stamp, isBuyerMaker: bool)
      modifies this`trades
      ensures trades.Keys == old(trades).Keys + {at.order}
      ensures forall id :: id in old(trades) && id != at.order ==> trades[id] == old(trades)[id]
      ensures at.order !in old(trades) ==>
                trades[at.order] == Trade(book, f.clearingPrice, f.ticks, isBuyerMaker, at.time)
      ensures at.order in old(trades) ==>
                var r, r' := old(trades)[at.order], trades[at.order];
                && r'.book == r.book && r'.price == r.price && r'.qty == r.qty && r'.isBuyerMaker == r.isBuyerMaker
                && (r.chainTime.Some? ==> r'.chainTime == r.chainTime)
                && (r.chainTime.None? && r == Trade(book, f.clearingPrice, f.ticks, isBuyerMaker, None) ==>
                      r'.chainTime == at.time)
                && (r.(chainTime := None) != Trade(book, f.clearingPrice, f.ticks, isBuyerMaker, None) ==> r' == r)
      ensures Snapshot() == AppendTrade(old(Snapshot()), book, f, at, isBuyerMaker)
    {
      if at.order !in trades {
        trades := trades[at.order := Trade(book, f.clearingPrice, f.ticks, isBuyerMaker, at.time)];
        return;
      }
      var r := trades[at.order];
      if r.book == book && r.price == f.clearingPrice && r.qty == f.ticks && r.isBuyerMaker == isBuyerMaker
         && r.chainTime.None? {
        trades := trades[at.order := r.(chainTime := at.time)];
      } else {
        assert trades == trades[at.order := r];
      }
    }

    /** Returns false, with nothing written, while a leg is missing. */
    method ApplyInferenceFilled(book: Address, f: Fill, at: Stamp) returns (applied: bool)
      modifies this
      ensures applied <==> BothLegs(old(Snapshot()), book, f)
      ensures Snapshot() == if applied then ApplyFilled(old(Snapshot()), book, f, at) else old(Snapshot())
    {
      if OrderKey(book, f.makerId) !in orders || OrderKey(book, f.takerId) !in orders {
        return false;
      }
      var side := ResolveIsBuyerMaker(orders, book, f);
      ApplyFilledDecrement(book, f, at);
      LinkDealFromFilled(book, f, at);
      if side.Some? {
        AppendInferenceTrade(book, f, at, side.value);
      }
      applied := true;
    }

    method RepairExpiredOrphan(book: Address, f: Fill, at: Stamp) returns (legs: nat)
      modifies this
      ensures Snapshot() == RepairFilled(old(Snapshot()), book, f, at)
      ensures legs == |set k | k in Legs(book, f) && k in old(orders)|
    {
      var locked := set k | k in Legs(book, f) && k in orders;
      legs := |locked|;
      var side := ResolveIsBuyerMaker(orders, book, f);
      if locked != {} {
        ApplyFilledDecrement(book, f, at);
      } else {
        assert DecrementLegs(orders, book, f, at) == orders by {
          assert forall k :: k in orders && k in Legs(book, f) ==> k in locked;
        }
        assert !AnyLegSwept(orders, book, f) by {
          assert forall k :: k in orders && k in Legs(book, f) ==> k in locked;
        }
      }
      if side.Some? {
        AppendInferenceTrade(book, f, at, side.value);
      }
      LinkDealFromFilled(book, f, at);
    }

    method ApplyOrderCancelled(k: OrderKey, at: Stamp) returns (applied: bool)
      modifies this`orders
      ensures applied <==> k in old(orders)
      ensures Snapshot() == if applied then CancelOrder(old(Snapshot()), k, at) else old(Snapshot())
      ensures applied ==> k in orders && TakesCancel(old(orders)[k], at, orders[k])
    {
      applied := k in orders;
      if applied && orders[k].status != Filled {
        var o := orders[k];
        orders := orders[k := o.(status := Cancelled, swept := false,
                                 lastChainOrder := Greatest(o.lastChainOrder, at.order),
                                 chainUpdatedAt := GreatestOpt(o.chainUpdatedAt, at.time))];
      }
    }

    method ApplyOrderExpired(k: OrderKey, at: Stamp) returns (applied: bool)
      modifies this`orders
      ensures applied <==> k in old(orders)
      ensures Snapshot() == if applied then ExpireOrder(old(Snapshot()), k, at) else old(Snapshot())
      ensures applied ==> k in orders && TakesExpiryOf(old(orders)[k], at, orders[k])
    {
      applied := k in orders;
      if applied {
        var takesExpiry := orders[k].status == Open || (orders[k].status == Cancelled && orders[k].swept);
        if takesExpiry {
          var o := orders[k];
          orders := orders[k := o.(status := Expired, swept := false,
                                   lastChainOrder := Greatest(o.lastChainOrder, at.order),
                                   chainUpdatedAt := GreatestOpt(o.chainUpdatedAt, at.time))];
        }
      }
    }

    /** The reconciler's provisional cancel of rows the chain no longer knows. */
    method ProvisionalCancel(book: Address, ids: seq<nat>)
      modifies this`orders
      ensures Snapshot() == Sweep(old(Snapshot()), book, set i | i in ids)
      ensures forall k :: k in old(orders) ==>
                && k in orders
                && if k.book == book && k.id in ids then TakesSweep(old(orders)[k], orders[k])
                   else orders[k] == old(orders)[k]
    {
      var n := 0;
      while n < |ids|
        invariant 0 <= n <= |ids|
        invariant orders.Keys == old(orders.Keys)
        invariant markets == old(markets) && deals == old(deals) && trades == old(trades)
        invariant forall k :: k in orders ==>
          orders[k] == if k.book == book && k.id in ids[..n] then SweepRow(old(orders)[k]) else old(orders)[k]
      {
        assert ids[..n + 1] == ids[..n] + [ids[n]];
        var k := OrderKey(book, ids[n]);
        if k in orders && orders[k].status == Open {
          orders := orders[k := orders[k].(status := Cancelled, swept := true)];
        }
        n := n + 1;
      }
      assert ids[..n] == ids;
    }

    /** Dispatches one event; `result` reports what the drain must do with the row. */
    method ProjectEvent(e: Event, order: ChainOrder) returns (result: Outcome)
      modifies this
      ensures result == Project(old(Snapshot()), e, order)
      ensures !result.Failed? ==> Snapshot() == result.tables
    {
      if e.src.None? {
        return Failed;
      }
      var book, at := e.src.value, Stamp(order, e.time);
      SeedMarketSkeleton(book, e.time);
      var applied := true;
      match e.payload {
      case OrderPlaced(id, _, _, _, _, _, _) => ApplyOrderPlaced(book, id, PlacementOf(e.payload), at);
      case SubscriptionPlaced(id, _, _, _) => ApplyOrderPlaced(book, id, PlacementOf(e.payload), at);
      case OrderCancelled(id) => applied := ApplyOrderCancelled(OrderKey(book, id), at);
      case OrderExpired(id) => applied := ApplyOrderExpired(OrderKey(book, id), at);
      case OrderFilled(f) => applied := ApplyInferenceFilled(book, f, at);
      case Observed =>
      case Unrecognised => return Unknown(Tables(orders, markets, deals, trades));
      case Malformed => return Failed;
      }
      var tables := Tables(orders, markets, deals, trades);
      result := if applied then Applied(tables) else Deferred(tables);
    }

    /** One operation under its savepoint: an error puts the tables back. */
    method Perform(op: Op)
      modifies this
      ensures Snapshot() == Act(old(Snapshot()), op)
    {
      var orders0, markets0, deals0, trades0 := orders, markets, deals, trades;
      match op {
      case Deliver(e, order) =>
        var result := ProjectEvent(e, order);
        if result.Failed? {
          orders, markets, deals, trades := orders0, markets0, deals0, trades0;
        }
      case Orphan(e, order) =>
        if e.payload.OrderFilled? && e.src.Some? {
          var _ := RepairExpiredOrphan(e.src.value, e.payload.fill, Stamp(order, e.time));
        }
      case SweepIds(book, ids) =>
        var list := Listed(ids);
        assert (set i | i in list) == ids;
        ProvisionalCancel(book, list);
      }
    }

    /** The object follows the table functions through every run, so what is proved of those runs holds of it. */
    method PerformAll(ops: seq<Op>)
      modifies this
      ensures Snapshot() == Play(old(Snapshot()), ops)
    {
      ghost var t0 := Snapshot();
      for i := 0 to |ops|
        invariant Play(t0, ops) == Play(Snapshot(), ops[i..])
      {
        assert ops[i..][0] == ops[i] && ops[i..][1..] == ops[i + 1..];
        Perform(ops[i]);
      }
    }
  }

  method Listed(ids: set<nat>) returns (list: seq<nat>)
    ensures forall i :: i in list <==> i in ids
  {
    list := [];
    var rest := ids;
    while rest != {}
      invariant rest <= ids && forall i :: i in list <==> i in ids - rest
      decreases |rest|
    {
      var i :| i in rest;
      list, rest := list + [i], rest - {i};
    }
  }
}
