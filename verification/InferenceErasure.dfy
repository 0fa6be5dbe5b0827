/**
 Sweep erasure. The sweeper only ever guesses; deleting its steps from a run changes nothing
 but the guess itself.
 */
module InferenceErasure {
  import opened Prelude
  import opened InferenceModel
  import opened InferenceRuns

  /** What the chain placed under each key: replays of a placement repeat it. */
  type Placements = map<OrderKey, (Placement, Stamp)>

  ghost predicate Genuine(placed: Placements, op: Op) {
    var k := PlacedKey(op);
    k.Some? ==>
      && k.value in placed
      && placed[k.value] == (PlacementOf(op.event.payload), Stamp(op.order, op.event.time))
  }

  ghost predicate AllGenuine(placed: Placements, ops: seq<Op>) {
    forall i :: 0 <= i < |ops| ==> Genuine(placed, ops[i])
  }

  function Undo(o: Order): Order {
    if o.swept then o.(status := Open, swept := false) else o
  }

  /** The row still carries what its placement said, and has seen nothing earlier than it. */
  predicate RestsAs(o: Order, p: Placement, at: Stamp) {
    && o.isBuy == p.isBuy && o.price == p.price && o.initial == p.ticks && o.isSubscription == p.isSubscription
    && o.note == p.note && o.tokenContract == p.tokenContract && o.deadline == p.deadline
    && o.chainCreatedAt == at.time && o.lastChainOrder >= at.order
    && GreatestOpt(o.chainUpdatedAt, at.time) == o.chainUpdatedAt
    && (o.swept ==> o.status == Cancelled)
  }

  ghost predicate RowsRest(placed: Placements, orders: Orders) {
    forall k :: k in orders ==> k in placed && RestsAs(orders[k], placed[k].0, placed[k].1)
  }

  /** A change other than a sweep does to the un-swept row what it does to the swept one. */
  lemma UndoCommutes(o: Order, c: Change, p: Placement, at: Stamp)
    requires RestsAs(o, p, at) && !c.BySweep? && (c.ByReplay? ==> c.p == p && c.at == at)
    ensures Undo(Changed(o, c)) == Changed(Undo(o), c)
    ensures RestsAs(Changed(o, c), p, at)
    ensures c.ByFill? || c.ByCancel? || c.ByExpiry? ==> !Changed(o, c).swept
  {
  }

  lemma SweepIsUndone(o: Order, p: Placement, at: Stamp)
    requires RestsAs(o, p, at)
    ensures Undo(SweepRow(o)) == Undo(o) && RestsAs(SweepRow(o), p, at)
  {
  }

  function UndoAll(orders: Orders): Orders {
    map k | k in orders :: Undo(orders[k])
  }

  function NoSweeps(ops: seq<Op>): seq<Op>
    decreases |ops|
  {
    if ops == [] then []
    else if ops[0].SweepIds? then NoSweeps(ops[1..])
    else [ops[0]] + NoSweeps(ops[1..])
  }

  lemma RowErases(placed: Placements, orders: Orders, op: Op, k: OrderKey)
    requires RowsRest(placed, orders) && Genuine(placed, op) && k in orders
    ensures RestsAs(OrdersAfter(orders, op)[k], placed[k].0, placed[k].1)
    ensures Undo(OrdersAfter(orders, op)[k]) ==
            if op.SweepIds? then Undo(orders[k]) else Changed(Undo(orders[k]), ChangeAt(orders, op, k))
  {
    var c := ChangeAt(orders, op, k);
    assert OrdersAfter(orders, op)[k] == Changed(orders[k], c);
    if c.BySweep? {
      SweepIsUndone(orders[k], placed[k].0, placed[k].1);
    } else {
      UndoCommutes(orders[k], c, placed[k].0, placed[k].1);
    }
  }

  lemma OpKeepsRest(placed: Placements, orders: Orders, op: Op)
    requires RowsRest(placed, orders) && Genuine(placed, op)
    ensures RowsRest(placed, OrdersAfter(orders, op))
  {
    forall k | k in orders ensures RestsAs(OrdersAfter(orders, op)[k], placed[k].0, placed[k].1) {
      RowErases(placed, orders, op, k);
    }
  }

  lemma SameChanges(orders: Orders, clean: Orders, op: Op, k: OrderKey)
    requires orders.Keys == clean.Keys
    ensures ChangeAt(orders, op, k) == ChangeAt(clean, op, k)
  {
  }

  /** One row of the table that was there before. */
  lemma ErasedRow(placed: Placements, orders: Orders, op: Op, k: OrderKey)
    requires RowsRest(placed, orders) && Genuine(placed, op) && k in orders
    ensures Undo(OrdersAfter(orders, op)[k]) ==
            if op.SweepIds? then UndoAll(orders)[k] else OrdersAfter(UndoAll(orders), op)[k]
  {
    var clean := UndoAll(orders);
    RowErases(placed, orders, op, k);
    SameChanges(orders, clean, op, k);
    assert clean[k] == Undo(orders[k]);
    assert OrdersAfter(clean, op)[k] == Changed(clean[k], ChangeAt(clean, op, k));
  }

  lemma OpErases(placed: Placements, orders: Orders, op: Op)
    requires RowsRest(placed, orders) && Genuine(placed, op)
    ensures UndoAll(OrdersAfter(orders, op)) ==
            if op.SweepIds? then UndoAll(orders) else OrdersAfter(UndoAll(orders), op)
  {
    var a := UndoAll(OrdersAfter(orders, op));
    var b := if op.SweepIds? then UndoAll(orders) else OrdersAfter(UndoAll(orders), op);
    assert a.Keys == b.Keys by {
      assert UndoAll(orders).Keys == orders.Keys;
    }
    forall k | k in a ensures a[k] == b[k] {
      if k in orders {
        ErasedRow(placed, orders, op, k);
      }
    }
  }

  // ---------------------------------------------------------------- tape and deals

  /** Equal but for provisional sweeps and the sweeper's own bookkeeping on markets. */
  ghost predicate SameButSwept(t: Tables, u: Tables) {
    UndoAll(t.orders) == UndoAll(u.orders) && t.deals == u.deals && t.trades == u.trades
  }

  lemma LegsAgree(a: Orders, b: Orders, k: OrderKey)
    requires UndoAll(a) == UndoAll(b)
    ensures k in a <==> k in b
    ensures k in a ==> a[k].isBuy == b[k].isBuy && a[k].note == b[k].note
  {
    assert k in a <==> k in UndoAll(a);
    assert k in b <==> k in UndoAll(b);
    if k in a {
      assert UndoAll(a)[k] == Undo(a[k]) && UndoAll(b)[k] == Undo(b[k]);
    }
  }

  lemma SidesAgree(t: Tables, u: Tables, book: Address, f: Fill)
    requires UndoAll(t.orders) == UndoAll(u.orders)
    ensures SellerNote(t.orders, book, f) == SellerNote(u.orders, book, f)
    ensures ResolveIsBuyerMaker(t.orders, book, f) == ResolveIsBuyerMaker(u.orders, book, f)
    ensures BothLegs(t, book, f) <==> BothLegs(u, book, f)
  {
    LegsAgree(t.orders, u.orders, OrderKey(book, f.makerId));
    LegsAgree(t.orders, u.orders, OrderKey(book, f.takerId));
  }

  /** The deals and the tape after a fill or its repair, from what they were, the seller and the side. */
  lemma FilledParts(t: Tables, book: Address, f: Fill, at: Stamp)
    ensures var deals := LinkedDeals(t.deals, SellerNote(t.orders, book, f), book, f, at.order);
            ApplyFilled(t, book, f, at).deals == deals && RepairFilled(t, book, f, at).deals == deals
    ensures var side := ResolveIsBuyerMaker(t.orders, book, f);
            var trades := if side.Some? then Taped(t.trades, book, f, at, side.value) else t.trades;
            ApplyFilled(t, book, f, at).trades == trades && RepairFilled(t, book, f, at).trades == trades
  {
    SellerSurvives(t, book, f, at);
  }

  lemma SellerSurvives(t: Tables, book: Address, f: Fill, at: Stamp)
    ensures SellerNote(DecrementLegs(t.orders, book, f, at), book, f) == SellerNote(t.orders, book, f)
  {
  }

  /** What a fill or its repair does to the markets. */
  lemma RepairedMarkets(t: Tables, book: Address, f: Fill, at: Stamp)
    ensures var markets := if AnyLegSwept(t.orders, book, f) then RestartSweep(t.markets, book) else t.markets;
            RepairFilled(t, book, f, at).markets == markets && ApplyFilled(t, book, f, at).markets == markets
  {
  }

  lemma FillsAgree(t: Tables, u: Tables, book: Address, f: Fill, at: Stamp)
    requires SameButSwept(t, u)
    ensures ApplyFilled(t, book, f, at).deals == ApplyFilled(u, book, f, at).deals
    ensures ApplyFilled(t, book, f, at).trades == ApplyFilled(u, book, f, at).trades
    ensures RepairFilled(t, book, f, at).deals == RepairFilled(u, book, f, at).deals
    ensures RepairFilled(t, book, f, at).trades == RepairFilled(u, book, f, at).trades
  {
    SidesAgree(t, u, book, f);
    FilledParts(t, book, f, at);
    FilledParts(u, book, f, at);
  }

  lemma DeliveredFillsAgree(t: Tables, u: Tables, e: Event, order: ChainOrder)
    requires SameButSwept(t, u) && e.src.Some? && e.payload.OrderFilled?
    ensures Act(t, Deliver(e, order)).deals == Act(u, Deliver(e, order)).deals
    ensures Act(t, Deliver(e, order)).trades == Act(u, Deliver(e, order)).trades
  {
    var book, f, at := e.src.value, e.payload.fill, Stamp(order, e.time);
    SidesAgree(t, u, book, f);
    FillsAgree(SeedMarket(t, book, e.time), SeedMarket(u, book, e.time), book, f, at);
  }

  lemma RepairedFillsAgree(t: Tables, u: Tables, e: Event, order: ChainOrder)
    requires SameButSwept(t, u) && e.src.Some? && e.payload.OrderFilled?
    ensures Act(t, Orphan(e, order)).deals == Act(u, Orphan(e, order)).deals
    ensures Act(t, Orphan(e, order)).trades == Act(u, Orphan(e, order)).trades
  {
    FillsAgree(t, u, e.src.value, e.payload.fill, Stamp(order, e.time));
  }

  /** Apart from fills, only the placement of an ask touches a deal, and nothing touches the tape. */
  lemma NonFillParts(t: Tables, op: Op)
    requires !op.SweepIds? && (op.event.src.None? || !op.event.payload.OrderFilled?)
    ensures Act(t, op).trades == t.trades
    ensures Act(t, op).deals ==
            if PlacedKey(op).Some? && !PlacedRow(op).isBuy && PlacedRow(op).tokenContract.Some?
            then EndFundingCycle(t.deals, PlacedRow(op).tokenContract.value, op.order) else t.deals
  {
    if PlacedKey(op).Some? {
      PlacedParts(t, op);
    }
  }

  lemma PlacedParts(t: Tables, op: Op)
    requires PlacedKey(op).Some?
    ensures Act(t, op).trades == t.trades
    ensures Act(t, op).deals ==
            if !PlacedRow(op).isBuy && PlacedRow(op).tokenContract.Some?
            then EndFundingCycle(t.deals, PlacedRow(op).tokenContract.value, op.order) else t.deals
  {
  }

  lemma OthersAgree(t: Tables, u: Tables, op: Op)
    requires SameButSwept(t, u) && !op.SweepIds?
    ensures Act(t, op).deals == Act(u, op).deals && Act(t, op).trades == Act(u, op).trades
  {
    if op.event.src.Some? && op.event.payload.OrderFilled? {
      if op.Deliver? {
        DeliveredFillsAgree(t, u, op.event, op.order);
      } else {
        RepairedFillsAgree(t, u, op.event, op.order);
      }
    } else {
      NonFillParts(t, op);
      NonFillParts(u, op);
    }
  }

  // ---------------------------------------------------------------- markets

  /** The same markets, created and reconciled alike: only the sweeper's own bookkeeping may differ. */
  ghost predicate MarketsAlike(a: map<Address, Market>, b: map<Address, Market>) {
    a.Keys == b.Keys && forall m :: m in a ==> a[m].createdAt == b[m].createdAt && a[m].reconciled == b[m].reconciled
  }

  /** What an event writes to the markets, restarts of the sweep aside. */
  function SeededMarkets(t: Tables, op: Op): map<Address, Market> {
    if op.Deliver? && op.event.src.Some? && !op.event.payload.Malformed?
    then SeedMarket(t, op.event.src.value, op.event.time).markets else t.markets
  }

  lemma RestartIsAlike(markets: map<Address, Market>, book: Address)
    ensures MarketsAlike(RestartSweep(markets, book), markets)
  {
  }

  lemma FillMarkets(t: Tables, op: Op)
    requires !op.SweepIds? && op.event.src.Some? && op.event.payload.OrderFilled?
    ensures MarketsAlike(Act(t, op).markets, SeededMarkets(t, op))
  {
    var book, f, at := op.event.src.value, op.event.payload.fill, Stamp(op.order, op.event.time);
    RestartIsAlike(SeededMarkets(t, op), book);
    if op.Deliver? {
      RepairedMarkets(SeedMarket(t, book, op.event.time), book, f, at);
    } else {
      RepairedMarkets(t, book, f, at);
    }
  }

  lemma EventMarkets(t: Tables, op: Op)
    ensures MarketsAlike(Act(t, op).markets, SeededMarkets(t, op))
  {
    if !op.SweepIds? && op.event.src.Some? && op.event.payload.OrderFilled? {
      FillMarkets(t, op);
    }
  }

  lemma MarketsStayAlike(t: Tables, u: Tables, op: Op)
    requires MarketsAlike(t.markets, u.markets)
    ensures MarketsAlike(Act(t, op).markets, Act(u, op).markets)
  {
    var a, b := SeededMarkets(t, op), SeededMarkets(u, op);
    EventMarkets(t, op);
    EventMarkets(u, op);
    SeedsAlike(t, u, op);
    AlikeChain(Act(t, op).markets, a, b, Act(u, op).markets);
  }

  lemma SeedsAlike(t: Tables, u: Tables, op: Op)
    requires MarketsAlike(t.markets, u.markets)
    ensures MarketsAlike(SeededMarkets(t, op), SeededMarkets(u, op))
  {
  }

  lemma AlikeChain(a: map<Address, Market>, b: map<Address, Market>, c: map<Address, Market>, d: map<Address, Market>)
    requires MarketsAlike(a, b) && MarketsAlike(b, c) && MarketsAlike(d, c)
    ensures MarketsAlike(a, d)
  {
  }

  // ---------------------------------------------------------------- lockstep

  /** `u` is `t` without its provisional sweeps, the sweeper's bookkeeping on markets aside. */
  ghost predicate Twins(placed: Placements, t: Tables, u: Tables) {
    && RowsRest(placed, t.orders) && u.orders == UndoAll(t.orders)
    && t.deals == u.deals && t.trades == u.trades && MarketsAlike(t.markets, u.markets)
  }

  lemma UndoTwice(orders: Orders)
    ensures UndoAll(UndoAll(orders)) == UndoAll(orders)
  {
  }

  /** The same event keeps them so. */
  lemma TwinsAct(placed: Placements, t: Tables, u: Tables, op: Op)
    requires Twins(placed, t, u) && Genuine(placed, op) && !op.SweepIds?
    ensures Twins(placed, Act(t, op), Act(u, op))
  {
    UndoTwice(t.orders);
    OpKeepsRest(placed, t.orders, op);
    OpErases(placed, t.orders, op);
    OrdersFollowLens(t, op);
    OrdersFollowLens(u, op);
    OthersAgree(t, u, op);
    MarketsStayAlike(t, u, op);
  }

  /** So does a sweep of the one. */
  lemma TwinsSweep(placed: Placements, t: Tables, u: Tables, op: Op)
    requires Twins(placed, t, u) && op.SweepIds?
    ensures Twins(placed, Act(t, op), u)
  {
    OpKeepsRest(placed, t.orders, op);
    OpErases(placed, t.orders, op);
    OrdersFollowLens(t, op);
  }

  lemma {:induction false} ErasedRun(placed: Placements, t: Tables, u: Tables, ops: seq<Op>)
    requires Twins(placed, t, u) && AllGenuine(placed, ops)
    ensures Twins(placed, Play(t, ops), Play(u, NoSweeps(ops)))
    decreases |ops|
  {
    if ops != [] {
      var op := ops[0];
      if op.SweepIds? {
        TwinsSweep(placed, t, u, op);
        ErasedRun(placed, Act(t, op), u, ops[1..]);
      } else {
        TwinsAct(placed, t, u, op);
        assert NoSweeps(ops)[0] == op && NoSweeps(ops)[1..] == NoSweeps(ops[1..]);
        ErasedRun(placed, Act(t, op), Act(u, op), ops[1..]);
      }
    }
  }

  /**
   For every run of genuine placements, fills, cancels, expiries, repairs and sweeps over
   empty order tables, deleting all sweep steps gives the same deals, the same tape and the
   same orders, except that a row still marked swept is OPEN with everything else equal.
   */
  lemma SweepsAreErasable(placed: Placements, t: Tables, ops: seq<Op>)
    requires t.orders == map[] && AllGenuine(placed, ops)
    ensures var swept, clean := Play(t, ops), Play(t, NoSweeps(ops));
            && swept.deals == clean.deals && swept.trades == clean.trades
            && MarketsAlike(swept.markets, clean.markets)
            && swept.orders.Keys == clean.orders.Keys
            && forall k :: k in swept.orders ==>
                 clean.orders[k] == if swept.orders[k].swept
                                    then swept.orders[k].(status := Open, swept := false)
                                    else swept.orders[k]
  {
    assert UndoAll(t.orders) == t.orders;
    ErasedRun(placed, t, t, ops);
    assert forall k :: k in Play(t, ops).orders ==> UndoAll(Play(t, ops).orders)[k] == Undo(Play(t, ops).orders[k]);
  }

  /** A fill, cancel or expiry that reaches a row leaves it equal to its row in the sweepless run. */
  lemma TouchedRowsAreExact(placed: Placements, t: Tables, ops: seq<Op>, op: Op, k: OrderKey)
    requires t.orders == map[] && AllGenuine(placed, ops) && Genuine(placed, op)
    requires k in Play(t, ops).orders
    requires var c := ChangeAt(Play(t, ops).orders, op, k); c.ByFill? || c.ByCancel? || c.ByExpiry?
    ensures k in Act(Play(t, ops), op).orders && k in Act(Play(t, NoSweeps(ops)), op).orders
    ensures Act(Play(t, ops), op).orders[k] == Act(Play(t, NoSweeps(ops)), op).orders[k]
  {
    assert UndoAll(t.orders) == t.orders;
    ErasedRun(placed, t, t, ops);
    TouchedRow(placed, Play(t, ops), Play(t, NoSweeps(ops)), op, k);
  }

  lemma TouchedRow(placed: Placements, t: Tables, u: Tables, op: Op, k: OrderKey)
    requires Twins(placed, t, u) && Genuine(placed, op) && k in t.orders
    requires var c := ChangeAt(t.orders, op, k); c.ByFill? || c.ByCancel? || c.ByExpiry?
    ensures k in Act(t, op).orders && k in Act(u, op).orders && Act(t, op).orders[k] == Act(u, op).orders[k]
  {
    TwinsAct(placed, t, u, op);
    OrdersFollowLens(t, op);
    UndoCommutes(t.orders[k], ChangeAt(t.orders, op, k), placed[k].0, placed[k].1);
    assert UndoAll(Act(t, op).orders)[k] == Undo(Act(t, op).orders[k]);
  }

  /** A replay that does not repeat the first payload is refused by a swept row and taken by an open one. */
  lemma DivergentReplayIsNotErasable(p: Placement, q: Placement, at: Stamp)
    requires p.price != q.price
    ensures Undo(ReplayRow(SweepRow(FreshRow(p, at)), q, at)).price == p.price
    ensures ReplayRow(FreshRow(p, at), q, at).price == q.price
  {
  }
}
