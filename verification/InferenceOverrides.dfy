/**
 The sweeper's view of the fills. A book still in discovery counts every fill that overrode one
 of its provisional cancels, so a sweep cycle can tell that it must start again.
 */
module InferenceOverrides {
  import opened Prelude
  import opened InferenceModel
  import opened InferenceRuns
  import opened InferenceErasure

  /** The operation fills a swept row of `book`. */
  ghost predicate Overrides(orders: Orders, op: Op, book: Address) {
    exists k :: k in orders && k.book == book && orders[k].swept && ChangeAt(orders, op, k).ByFill?
  }

  /** How many operations of a run do, from the order rows alone. */
  ghost function Overridden(orders: Orders, ops: seq<Op>, book: Address): nat
    decreases |ops|
  {
    if ops == [] then 0
    else (if Overrides(orders, ops[0], book) then 1 else 0) + Overridden(OrdersAfter(orders, ops[0]), ops[1..], book)
  }

  function Restarted(m: Market): Market {
    m.(sweepCursor := None, overrideSeq := m.overrideSeq + 1)
  }

  lemma FillOverrides(t: Tables, op: Op, book: Address)
    requires FillsOn(op, book)
    ensures Overrides(t.orders, op, book) <==>
              && AnyLegSwept(t.orders, book, op.event.payload.fill)
              && (op.Deliver? ==> BothLegs(t, book, op.event.payload.fill))
  {
    var f := op.event.payload.fill;
    if AnyLegSwept(t.orders, book, f) && (op.Deliver? ==> BothLegs(t, book, f)) {
      var k :| k in Legs(book, f) && k in t.orders && t.orders[k].swept;
      assert ChangeAt(t.orders, op, k).ByFill?;
    }
  }

  predicate FillsOn(op: Op, book: Address) {
    !op.SweepIds? && op.event.src == Some(book) && op.event.payload.OrderFilled?
  }

  lemma OthersOverrideNothing(orders: Orders, op: Op, book: Address)
    requires !FillsOn(op, book)
    ensures !Overrides(orders, op, book)
  {
  }

  /** Other events leave the market row alone, and so do fills of other books. */
  lemma OthersLeaveMarket(t: Tables, op: Op, book: Address)
    requires !FillsOn(op, book) && book in t.markets
    ensures book in Act(t, op).markets && Act(t, op).markets[book] == t.markets[book]
  {
    if !op.SweepIds? && op.event.src.Some? && FillsOn(op, op.event.src.value) {
      if op.Deliver? {
        DeliveredElsewhere(t, op.event, op.order, book);
      } else {
        RepairedElsewhere(t, op.event, op.order, book);
      }
    }
  }

  lemma DeliveredElsewhere(t: Tables, e: Event, order: ChainOrder, book: Address)
    requires e.src.Some? && e.src.value != book && e.payload.OrderFilled? && book in t.markets
    ensures book in Act(t, Deliver(e, order)).markets
    ensures Act(t, Deliver(e, order)).markets[book] == t.markets[book]
  {
    RepairedMarkets(SeedMarket(t, e.src.value, e.time), e.src.value, e.payload.fill, Stamp(order, e.time));
  }

  lemma RepairedElsewhere(t: Tables, e: Event, order: ChainOrder, book: Address)
    requires e.src.Some? && e.src.value != book && e.payload.OrderFilled? && book in t.markets
    ensures book in Act(t, Orphan(e, order)).markets
    ensures Act(t, Orphan(e, order)).markets[book] == t.markets[book]
  {
    RepairedMarkets(t, e.src.value, e.payload.fill, Stamp(order, e.time));
  }

  /** One operation restarts the sweep of a discovering book exactly when it overrides a sweep there. */
  lemma OverrideRestarts(t: Tables, op: Op, book: Address)
    requires book in t.markets
    ensures book in Act(t, op).markets
    ensures Act(t, op).markets[book] ==
            if Overrides(t.orders, op, book) && !t.markets[book].reconciled
            then Restarted(t.markets[book]) else t.markets[book]
  {
    if !FillsOn(op, book) {
      OthersOverrideNothing(t.orders, op, book);
      OthersLeaveMarket(t, op, book);
    } else {
      FillOverrides(t, op, book);
      RepairedMarkets(t, book, op.event.payload.fill, Stamp(op.order, op.event.time));
    }
  }

  /** Over every run, the counter of a discovering book has grown by exactly the overrides on it. */
  lemma {:induction false} OverridesAreCounted(t: Tables, ops: seq<Op>, book: Address)
    requires book in t.markets && !t.markets[book].reconciled
    ensures book in Play(t, ops).markets
    ensures var m, m', n := t.markets[book], Play(t, ops).markets[book], Overridden(t.orders, ops, book);
            && m'.overrideSeq == m.overrideSeq + n
            && m'.sweepCursor == if n == 0 then m.sweepCursor else None
    decreases |ops|
  {
    if ops != [] {
      OverrideRestarts(t, ops[0], book);
      OrdersFollowLens(t, ops[0]);
      OverridesAreCounted(Act(t, ops[0]), ops[1..], book);
    }
  }
}
