/** Deferred fills, and the repair of fills whose missing leg will never arrive. */
module InferenceOrphans {
  import opened Prelude
  import opened InferenceModel
  import opened InferenceRuns
  import opened InferenceErasure

  // ---------------------------------------------------------------- deferral

  /** A deferred event writes at most one market skeleton, and retrying it writes nothing more. */
  lemma DeferralIsIdempotent(t: Tables, e: Event, order: ChainOrder)
    requires Project(t, e, order).Deferred?
    ensures var t' := Project(t, e, order).tables;
            && t'.orders == t.orders && t'.deals == t.deals && t'.trades == t.trades
            && t'.markets.Keys == t.markets.Keys + {e.src.value}
            && (forall m :: m in t.markets ==> t'.markets[m] == t.markets[m])
            && Project(t', e, order) == Deferred(t')
  {
  }

  /** Once both legs are placed a fill stays enabled, whatever happens next. */
  lemma {:induction false} EnabledFillStaysEnabled(t: Tables, ops: seq<Op>, book: Address, f: Fill)
    requires BothLegs(t, book, f)
    ensures BothLegs(Play(t, ops), book, f)
    decreases |ops|
  {
    if ops != [] {
      OrdersFollowLens(t, ops[0]);
      EnabledFillStaysEnabled(Act(t, ops[0]), ops[1..], book, f);
    }
  }

  // ---------------------------------------------------------------- repair

  /** `k` is the one leg of `f` that is not in the read model. */
  predicate OnlyMissing(t: Tables, book: Address, f: Fill, k: OrderKey) {
    k in Legs(book, f) && k !in t.orders && forall j :: j in Legs(book, f) && j != k ==> j in t.orders
  }

  /** The tables had the missing leg been placed as `row`. */
  function WithLeg(t: Tables, k: OrderKey, row: Order): Tables {
    t.(orders := t.orders[k := row])
  }

  /**
   Orders: each present leg ends in the row it would have reached with the missing leg placed,
   all other rows are untouched, and the missing row is not invented.
   */
  lemma RepairAgreesOnOrders(t: Tables, book: Address, f: Fill, at: Stamp, k: OrderKey, row: Order)
    requires OnlyMissing(t, book, f, k)
    ensures var repaired, full := RepairFilled(t, book, f, at), ApplyFilled(WithLeg(t, k, row), book, f, at);
            && repaired.orders.Keys == t.orders.Keys
            && (forall j :: j in t.orders ==> j in full.orders && repaired.orders[j] == full.orders[j])
            && (forall j :: j in t.orders && j !in Legs(book, f) ==> repaired.orders[j] == t.orders[j])
  {
    assert RepairFilled(t, book, f, at).orders == DecrementLegs(t.orders, book, f, at);
    assert ApplyFilled(WithLeg(t, k, row), book, f, at).orders == DecrementLegs(t.orders[k := row], book, f, at);
  }

  /** The tape takes the same direction from either leg exactly when the maker is present or the sides are opposite. */
  lemma RepairAgreesOnSide(t: Tables, book: Address, f: Fill, k: OrderKey, row: Order)
    requires OnlyMissing(t, book, f, k) && f.makerId != f.takerId
    ensures ResolveIsBuyerMaker(t.orders, book, f) == ResolveIsBuyerMaker(t.orders[k := row], book, f)
            <==> k.id == f.takerId || row.isBuy != t.orders[OrderKey(book, f.takerId)].isBuy
  {
  }

  /**
   Tape, deals and markets: with an opposite-side counterparty that was never swept, the repair
   leaves the tape and the markets the projector would have left, and the same deal rows up to
   the seller's note, which is known only from the SELL leg.
   */
  lemma RepairAgreesElsewhere(t: Tables, book: Address, f: Fill, at: Stamp, k: OrderKey, row: Order)
    requires OnlyMissing(t, book, f, k) && f.makerId != f.takerId && !row.swept
    requires k.id == f.takerId || row.isBuy != t.orders[OrderKey(book, f.takerId)].isBuy
    ensures var repaired, full := RepairFilled(t, book, f, at), ApplyFilled(WithLeg(t, k, row), book, f, at);
            && repaired.trades == full.trades
            && repaired.markets == full.markets
            && repaired.deals.Keys == full.deals.Keys
            && (forall tc :: tc in repaired.deals ==>
                  repaired.deals[tc].(sellerNote := None) == full.deals[tc].(sellerNote := None))
            && (row.isBuy ==> repaired.deals == full.deals)
  {
    RepairAgreesOnSide(t, book, f, k, row);
    FilledParts(t, book, f, at);
    FilledParts(WithLeg(t, k, row), book, f, at);
    SweptLegsAgree(t, book, f, k, row);
    RepairedMarkets(t, book, f, at);
    RepairedMarkets(WithLeg(t, k, row), book, f, at);
    if row.isBuy {
      assert SellerNote(t.orders, book, f) == SellerNote(t.orders[k := row], book, f);
    }
  }

  lemma SweptLegsAgree(t: Tables, book: Address, f: Fill, k: OrderKey, row: Order)
    requires k !in t.orders && !row.swept
    ensures AnyLegSwept(t.orders, book, f) <==> AnyLegSwept(t.orders[k := row], book, f)
  {
  }

  // ---------------------------------------------------------------- repair over whole runs

  /** A fill, or the repair of one, with `k` as a leg. */
  predicate FillNames(op: Op, k: OrderKey) {
    && !op.SweepIds? && op.event.src == Some(k.book) && op.event.payload.OrderFilled?
    && k in Legs(k.book, op.event.payload.fill)
  }

  /** The operation when the placement of `k` was lost: fills that name it are deferred and then repaired. */
  function StarveOp(op: Op, k: OrderKey): seq<Op> {
    if PlacedKey(op) == Some(k) then []
    else if op.Deliver? && FillNames(op, k) then [op, Orphan(op.event, op.order)]
    else [op]
  }

  function Starved(ops: seq<Op>, k: OrderKey): seq<Op>
    decreases |ops|
  {
    if ops == [] then [] else StarveOp(ops[0], k) + Starved(ops[1..], k)
  }

  function Without(orders: Orders, k: OrderKey): Orders {
    map j | j in orders && j != k :: orders[j]
  }

  /** A fill that names `k` finds both its legs, and its side does not hang on `k` alone. */
  predicate Fed(orders: Orders, op: Op, k: OrderKey) {
    FillNames(op, k) ==>
      var f := op.event.payload.fill;
      && Legs(k.book, f) <= orders.Keys && f.makerId != f.takerId
      && (k.id == f.takerId || orders[k].isBuy != orders[OrderKey(k.book, f.takerId)].isBuy)
  }

  ghost predicate FedRun(orders: Orders, ops: seq<Op>, k: OrderKey)
    decreases |ops|
  {
    ops == [] || (Fed(orders, ops[0], k) && FedRun(OrdersAfter(orders, ops[0]), ops[1..], k))
  }

  lemma PlayPair(t: Tables, p: Op, q: Op)
    ensures Play(t, [p]) == Act(t, p) && Play(t, [p, q]) == Act(Act(t, p), q)
  {
    assert [p][1..] == [] && [q][1..] == [] && [p, q][1..] == [q];
    assert Play(Act(Act(t, p), q), []) == Act(Act(t, p), q);
  }

  /** The two tables agree on the tape and on every order row but `k`, which the one never saw. */
  ghost predicate AgreeBut(t: Tables, u: Tables, k: OrderKey) {
    u.orders == Without(t.orders, k) && u.trades == t.trades
  }

  lemma PlacementOfMissing(t: Tables, u: Tables, op: Op, k: OrderKey)
    requires AgreeBut(t, u, k) && PlacedKey(op) == Some(k)
    ensures AgreeBut(Act(t, op), u, k)
  {
    OrdersFollowLens(t, op);
    NonFillParts(t, op);
  }

  lemma DeferredOrders(orders: Orders, op: Op, k: OrderKey)
    requires op.Deliver? && FillNames(op, k) && Fed(orders, op, k)
    ensures var repair := Orphan(op.event, op.order);
            OrdersAfter(OrdersAfter(Without(orders, k), op), repair) == Without(OrdersAfter(orders, op), k)
  {
  }

  lemma SideWithout(orders: Orders, op: Op, k: OrderKey)
    requires FillNames(op, k) && Fed(orders, op, k)
    ensures var f := op.event.payload.fill;
            ResolveIsBuyerMaker(Without(orders, k), k.book, f) == ResolveIsBuyerMaker(orders, k.book, f)
  {
  }

  /** What a fill writes to the tape, delivered or repaired. */
  function TapeAfter(trades: map<ChainOrder, Trade>, side: Option<bool>, op: Op): map<ChainOrder, Trade>
    requires !op.SweepIds? && op.event.src.Some? && op.event.payload.OrderFilled?
  {
    if side.None? then trades
    else Taped(trades, op.event.src.value, op.event.payload.fill, Stamp(op.order, op.event.time), side.value)
  }

  lemma FillTape(t: Tables, op: Op)
    requires !op.SweepIds? && op.event.src.Some? && op.event.payload.OrderFilled?
    ensures var book, f := op.event.src.value, op.event.payload.fill;
            Act(t, op).trades == if op.Deliver? && !BothLegs(t, book, f) then t.trades
                                 else TapeAfter(t.trades, ResolveIsBuyerMaker(t.orders, book, f), op)
  {
    var book, f, at := op.event.src.value, op.event.payload.fill, Stamp(op.order, op.event.time);
    if op.Deliver? {
      FilledParts(SeedMarket(t, book, op.event.time), book, f, at);
    } else {
      FilledParts(t, book, f, at);
    }
  }

  lemma DeferredFill(t: Tables, u: Tables, op: Op, k: OrderKey)
    requires AgreeBut(t, u, k) && op.Deliver? && FillNames(op, k) && Fed(t.orders, op, k)
    ensures AgreeBut(Act(t, op), Act(Act(u, op), Orphan(op.event, op.order)), k)
  {
    var repair, u' := Orphan(op.event, op.order), Act(u, op);
    OrdersFollowLens(t, op);
    OrdersFollowLens(u', repair);
    DeferredWaits(t.orders, u, op, k);
    DeferredOrders(t.orders, op, k);
    FillTape(t, op);
    FillTape(u', repair);
    SideWithout(t.orders, op, k);
  }

  /** Without the row the fill is deferred. */
  lemma DeferredWaits(orders: Orders, u: Tables, op: Op, k: OrderKey)
    requires u.orders == Without(orders, k) && op.Deliver? && FillNames(op, k)
    ensures Act(u, op).orders == u.orders == OrdersAfter(u.orders, op) && Act(u, op).trades == u.trades
  {
    OrdersFollowLens(u, op);
    FillTape(u, op);
  }

  lemma OtherOrders(orders: Orders, op: Op, k: OrderKey)
    requires PlacedKey(op) != Some(k) && (op.Deliver? ==> !FillNames(op, k))
    ensures OrdersAfter(Without(orders, k), op) == Without(OrdersAfter(orders, op), k)
  {
  }

  lemma OtherFillTape(t: Tables, u: Tables, op: Op, k: OrderKey)
    requires AgreeBut(t, u, k) && Fed(t.orders, op, k) && (op.Deliver? ==> !FillNames(op, k))
    requires !op.SweepIds? && op.event.src.Some? && op.event.payload.OrderFilled?
    ensures Act(u, op).trades == Act(t, op).trades
  {
    var book, f := op.event.src.value, op.event.payload.fill;
    FillTape(t, op);
    FillTape(u, op);
    if FillNames(op, k) {
      SideWithout(t.orders, op, k);
    } else {
      assert OrderKey(book, f.makerId) != k && OrderKey(book, f.takerId) != k;
    }
  }

  lemma OtherOp(t: Tables, u: Tables, op: Op, k: OrderKey)
    requires AgreeBut(t, u, k) && Fed(t.orders, op, k)
    requires PlacedKey(op) != Some(k) && (op.Deliver? ==> !FillNames(op, k))
    ensures AgreeBut(Act(t, op), Act(u, op), k)
  {
    OrdersFollowLens(t, op);
    OrdersFollowLens(u, op);
    OtherOrders(t.orders, op, k);
    if !op.SweepIds? {
      if op.event.src.Some? && op.event.payload.OrderFilled? {
        OtherFillTape(t, u, op, k);
      } else {
        NonFillParts(t, op);
        NonFillParts(u, op);
      }
    }
  }

  lemma StarvedStep(t: Tables, u: Tables, op: Op, k: OrderKey)
    requires AgreeBut(t, u, k) && Fed(t.orders, op, k)
    ensures AgreeBut(Act(t, op), Play(u, StarveOp(op, k)), k)
  {
    PlayPair(u, op, if op.SweepIds? then op else Orphan(op.event, op.order));
    if PlacedKey(op) == Some(k) {
      PlacementOfMissing(t, u, op, k);
    } else if op.Deliver? && FillNames(op, k) {
      DeferredFill(t, u, op, k);
    } else {
      OtherOp(t, u, op, k);
    }
  }

  /**
   Repair makes up for a lost placement over whole runs: drop the placement of `k`, and let every fill
   that names it be deferred and then repaired. If those fills found both legs in the full run, and no
   side hung on `k` alone, the two runs agree on the tape and on every other order row.
   */
  lemma {:induction false} RepairsMakeUpForLoss(t: Tables, u: Tables, ops: seq<Op>, k: OrderKey)
    requires AgreeBut(t, u, k) && FedRun(t.orders, ops, k)
    ensures AgreeBut(Play(t, ops), Play(u, Starved(ops, k)), k)
    decreases |ops|
  {
    if ops != [] {
      StarvedStep(t, u, ops[0], k);
      OrdersFollowLens(t, ops[0]);
      PlayConcat(u, StarveOp(ops[0], k), Starved(ops[1..], k));
      RepairsMakeUpForLoss(Act(t, ops[0]), Play(u, StarveOp(ops[0], k)), ops[1..], k);
    }
  }
}
