/**
 What each event writes, column by column, stated on the tables before and after it: the fill, the cancel,
 the expiry, the sweep, the placement and its replay, the deal's seller and the end of a funding cycle.
 */
module InferenceColumns {
  import opened Prelude
  import opened InferenceModel
  import opened InferenceRuns
  import InferenceErasure

  // ---------------------------------------------------------------- one row

  /** Everything the placement wrote. */
  predicate SamePlacement(o: Order, o': Order) {
    && o'.isBuy == o.isBuy && o'.price == o.price && o'.initial == o.initial
    && o'.isSubscription == o.isSubscription && o'.note == o.note && o'.tokenContract == o.tokenContract
    && o'.deadline == o.deadline && o'.chainCreatedAt == o.chainCreatedAt
  }

  /** The later of the two positions, and of the two times as far as they are known. */
  predicate Stamped(o: Order, o': Order, at: Stamp) {
    && o'.lastChainOrder >= o.lastChainOrder && o'.lastChainOrder >= at.order
    && (o'.lastChainOrder == o.lastChainOrder || o'.lastChainOrder == at.order)
    && LaterTime(o.chainUpdatedAt, at.time, o'.chainUpdatedAt)
  }

  predicate LaterTime(a: Option<Seconds>, b: Option<Seconds>, r: Option<Seconds>) {
    && (r == a || r == b)
    && (a.Some? ==> r.Some? && r.value >= a.value)
    && (b.Some? ==> r.Some? && r.value >= b.value)
  }

  /** FILLED, or cancelled by an event. */
  predicate Over(o: Order) {
    o.status == Filled || (o.status == Cancelled && !o.swept)
  }

  /**
   A fill leaves a row that is over alone. Any other row is down by the ticks, not below zero, and no longer
   swept; an ask is FILLED, a bid is FILLED exactly when nothing is left and OPEN otherwise.
   */
  predicate TakesFill(o: Order, ticks: nat, at: Stamp, o': Order) {
    if Over(o) then o' == o
    else
      && SamePlacement(o, o') && Stamped(o, o', at) && !o'.swept
      && (ticks >= o.remaining ==> o'.remaining == 0)
      && (ticks <= o.remaining ==> o'.remaining + ticks == o.remaining)
      && o'.status == (if o.isBuy && o'.remaining > 0 then Open else Filled)
  }

  /** A cancel leaves a FILLED row alone and makes any other CANCELLED for good, with its remainder. */
  predicate TakesCancel(o: Order, at: Stamp, o': Order) {
    if o.status == Filled then o' == o
    else
      && SamePlacement(o, o') && Stamped(o, o', at) && o'.remaining == o.remaining
      && o'.status == Cancelled && !o'.swept
  }

  /** An expiry takes an OPEN row, also one the sweeper has closed, and no other. */
  predicate TakesExpiryOf(o: Order, at: Stamp, o': Order) {
    if o.status == Open || (o.status == Cancelled && o.swept) then
      && SamePlacement(o, o') && Stamped(o, o', at) && o'.remaining == o.remaining
      && o'.status == Expired && !o'.swept
    else o' == o
  }

  /** The sweep closes an OPEN row provisionally and changes nothing else. */
  predicate TakesSweep(o: Order, o': Order) {
    if o.status == Open then o' == o.(status := Cancelled, swept := true) else o' == o
  }

  /** The columns a placement payload gives: the zero address and a zero deadline are absent. */
  predicate ShowsPayload(o: Order, p: Payload)
    requires IsPlacement(p)
  {
    && o.price == (if p.OrderPlaced? then p.price else p.maxPrice)
    && o.isBuy == (p.OrderPlaced? ==> p.isBuy) && o.isSubscription == p.SubscriptionPlaced?
    && o.initial == p.ticks && o.remaining == p.ticks && o.status == Open
    && o.note == Some(if p.OrderPlaced? then p.note else p.buyerNote)
  }

  function PayloadContract(p: Payload): Option<Address> {
    if p.OrderPlaced? && p.tokenContract != ZERO_ADDRESS then Some(p.tokenContract) else None
  }

  function PayloadDeadline(p: Payload): Option<nat> {
    if p.OrderPlaced? && p.deadline != 0 then Some(p.deadline) else None
  }

  /**
   A replayed placement is taken by a row that is neither FILLED nor CANCELLED and untouched, and by no
   other; what it does not say about token contract and deadline stays.
   */
  predicate TakesPlacement(o: Order, p: Payload, at: Stamp, o': Order)
    requires IsPlacement(p)
  {
    if o.status == Filled || o.status == Cancelled || o.remaining != o.initial then o' == o
    else
      && ShowsPayload(o', p) && Stamped(o, o', at) && o'.swept == o.swept
      && o'.tokenContract == (if PayloadContract(p).Some? then PayloadContract(p) else o.tokenContract)
      && o'.deadline == (if PayloadDeadline(p).Some? then PayloadDeadline(p) else o.deadline)
      && o'.chainCreatedAt == (if o.chainCreatedAt.Some? then o.chainCreatedAt else at.time)
  }

  lemma FillRowShows(o: Order, ticks: nat, at: Stamp)
    ensures TakesFill(o, ticks, at, FillRow(o, ticks, at))
  {
    if !Over(o) {
      var o' := FillRow(o, ticks, at);
      assert SamePlacement(o, o') && Stamped(o, o', at) && !o'.swept;
    }
  }

  lemma ClosingShows(o: Order, at: Stamp)
    ensures TakesCancel(o, at, CancelRow(o, at))
    ensures TakesExpiryOf(o, at, ExpireRow(o, at))
  {
  }

  lemma ReplayShows(o: Order, p: Payload, at: Stamp)
    requires IsPlacement(p)
    ensures TakesPlacement(o, p, at, ReplayRow(o, PlacementOf(p), at))
  {
  }

  lemma ChangeKeepsPlacement(o: Order, c: Change)
    requires !c.ByReplay?
    ensures SamePlacement(o, Changed(o, c))
  {
  }

  // ---------------------------------------------------------------- one operation

  /** The event can be read: it has a source, and its mandatory fields. */
  predicate Readable(e: Event) {
    e.src.Some? && !e.payload.Malformed?
  }

  lemma RowAfter(t: Tables, op: Op, k: OrderKey) returns (c: Change)
    requires k in t.orders
    ensures c == ChangeAt(t.orders, op, k)
    ensures k in Act(t, op).orders && Act(t, op).orders[k] == Changed(t.orders[k], c)
  {
    c := ChangeAt(t.orders, op, k);
    OrdersFollowLens(t, op);
  }

  /** The event names an order that is not in the tables. */
  predicate Waits(t: Tables, e: Event)
    requires e.src.Some?
  {
    match e.payload
    case OrderCancelled(id) => OrderKey(e.src.value, id) !in t.orders
    case OrderExpired(id) => OrderKey(e.src.value, id) !in t.orders
    case OrderFilled(f) =>
      OrderKey(e.src.value, f.makerId) !in t.orders || OrderKey(e.src.value, f.takerId) !in t.orders
    case _ => false
  }

  /** The fill, or the repair of one, names the row `k`. */
  predicate NamesLeg(op: Op, k: OrderKey) {
    && !op.SweepIds? && op.event.src == Some(k.book) && op.event.payload.OrderFilled?
    && (k.id == op.event.payload.fill.makerId || k.id == op.event.payload.fill.takerId)
  }

  function At(op: Op): Stamp
    requires !op.SweepIds?
  {
    Stamp(op.order, op.event.time)
  }

  lemma LegChange(orders: Orders, op: Op, k: OrderKey)
    requires NamesLeg(op, k)
    ensures var f := op.event.payload.fill;
            var ready := OrderKey(k.book, f.makerId) in orders && OrderKey(k.book, f.takerId) in orders;
            ChangeAt(orders, op, k) == if op.Orphan? || ready then ByFill(f.ticks, At(op)) else Stay
  {
    assert k in Legs(k.book, op.event.payload.fill);
  }

  /** A delivered fill takes both its legs or, while one is missing, none; a repair takes the legs that are there. */
  lemma FillShows(t: Tables, op: Op, k: OrderKey)
    requires k in t.orders && NamesLeg(op, k)
    ensures var f, t' := op.event.payload.fill, Act(t, op);
            && k in t'.orders
            && if op.Orphan? || !Waits(t, op.event) then TakesFill(t.orders[k], f.ticks, At(op), t'.orders[k])
               else t'.orders[k] == t.orders[k]
  {
    var f := op.event.payload.fill;
    var c := RowAfter(t, op, k);
    LegChange(t.orders, op, k);
    FillRowShows(t.orders[k], f.ticks, At(op));
  }

  lemma CancelShows(t: Tables, op: Op, k: OrderKey)
    requires k in t.orders && op.Deliver? && op.event.src == Some(k.book) && op.event.payload == OrderCancelled(k.id)
    ensures k in Act(t, op).orders && TakesCancel(t.orders[k], At(op), Act(t, op).orders[k])
  {
    var c := RowAfter(t, op, k);
    ClosingShows(t.orders[k], At(op));
  }

  lemma ExpiryShows(t: Tables, op: Op, k: OrderKey)
    requires k in t.orders && op.Deliver? && op.event.src == Some(k.book) && op.event.payload == OrderExpired(k.id)
    ensures k in Act(t, op).orders && TakesExpiryOf(t.orders[k], At(op), Act(t, op).orders[k])
  {
    var c := RowAfter(t, op, k);
    ClosingShows(t.orders[k], At(op));
  }

  lemma SweepShows(t: Tables, book: Address, ids: set<nat>, k: OrderKey)
    requires k in t.orders
    ensures var t' := Act(t, SweepIds(book, ids));
            && k in t'.orders
            && if k.book == book && k.id in ids then TakesSweep(t.orders[k], t'.orders[k])
               else t'.orders[k] == t.orders[k]
  {
  }

  /** A placement under a new key shows its payload; under a known one it is a replay. */
  lemma PlacementShows(t: Tables, op: Op, k: OrderKey)
    requires op.Deliver? && op.event.src == Some(k.book) && IsPlacement(op.event.payload)
    requires op.event.payload.id == k.id
    ensures k in Act(t, op).orders
    ensures var p, o' := op.event.payload, Act(t, op).orders[k];
            if k in t.orders then TakesPlacement(t.orders[k], p, At(op), o')
            else && ShowsPayload(o', p) && !o'.swept && o'.lastChainOrder == op.order
                 && o'.tokenContract == PayloadContract(p) && o'.deadline == PayloadDeadline(p)
                 && o'.chainCreatedAt == op.event.time && o'.chainUpdatedAt == op.event.time
  {
    if k in t.orders {
      var c := RowAfter(t, op, k);
      ReplayShows(t.orders[k], op.event.payload, At(op));
    } else {
      OrdersFollowLens(t, op);
    }
  }

  /** The operation is an event about the row `k`, or a sweep of it. */
  predicate Names(op: Op, k: OrderKey) {
    match op
    case SweepIds(book, ids) => book == k.book && k.id in ids
    case Orphan(_, _) => NamesLeg(op, k)
    case Deliver(e, _) =>
      && e.src == Some(k.book)
      && match e.payload
         case OrderPlaced(id, _, _, _, _, _, _) => id == k.id
         case SubscriptionPlaced(id, _, _, _) => id == k.id
         case OrderCancelled(id) => id == k.id
         case OrderExpired(id) => id == k.id
         case OrderFilled(f) => k.id == f.makerId || k.id == f.takerId
         case _ => false
  }

  /** No operation touches a row it does not name, or removes one, and only a placement adds one. */
  lemma OnlyNamedRowsChange(t: Tables, op: Op, k: OrderKey)
    ensures k in t.orders ==> k in Act(t, op).orders
    ensures k in t.orders && !Names(op, k) ==> Act(t, op).orders[k] == t.orders[k]
    ensures k !in t.orders && k in Act(t, op).orders ==>
              Names(op, k) && op.Deliver? && IsPlacement(op.event.payload)
  {
    OrdersFollowLens(t, op);
  }

  /** Only a fill is repaired, and an event that needs no handler writes nothing but its market's first row. */
  lemma QuietEvents(t: Tables, e: Event, order: ChainOrder)
    ensures !e.payload.OrderFilled? ==> Act(t, Orphan(e, order)) == t
    ensures e.payload.Observed? || e.payload.Unrecognised? ==>
              Act(t, Deliver(e, order)) == t.(markets := Act(t, Deliver(e, order)).markets)
    ensures !Readable(e) ==> Act(t, Deliver(e, order)) == t && Act(t, Orphan(e, order)) == t
    ensures Readable(e) && !e.payload.OrderFilled? ==>
              Act(t, Deliver(e, order)).markets
              == if e.src.value in t.markets then t.markets
                 else t.markets[e.src.value := Market(e.time, false, None, 0)]
  {
  }

  // ---------------------------------------------------------------- whole runs

  /** No row is ever removed. */
  lemma {:induction false} RowsStay(t: Tables, ops: seq<Op>, k: OrderKey)
    requires k in t.orders
    ensures k in Play(t, ops).orders
    decreases |ops|
  {
    if ops != [] {
      OnlyNamedRowsChange(t, ops[0], k);
      RowsStay(Act(t, ops[0]), ops[1..], k);
    }
  }

  /** A cancel event ends its order: in every continuation it is FILLED or CANCELLED, with what was left then. */
  lemma CancelIsFinal(t: Tables, op: Op, k: OrderKey, ops: seq<Op>)
    requires k in t.orders && op.Deliver? && op.event.src == Some(k.book) && op.event.payload == OrderCancelled(k.id)
    ensures var t' := Play(Act(t, op), ops);
            && k in t'.orders && t'.orders[k].remaining == t.orders[k].remaining
            && t'.orders[k].status == (if t.orders[k].status == Filled then Filled else Cancelled)
            && (t'.orders[k].status == Cancelled ==> !t'.orders[k].swept)
  {
    CancelShows(t, op, k);
    TerminalRowsAbsorb(Act(t, op), ops, k);
  }

  predicate PlacesRow(op: Op, k: OrderKey) {
    op.Deliver? && op.event.src == Some(k.book) && IsPlacement(op.event.payload) && op.event.payload.id == k.id
  }

  lemma OnePlacementStays(t: Tables, op: Op, k: OrderKey)
    requires k in t.orders && !PlacesRow(op, k)
    ensures k in Act(t, op).orders && SamePlacement(t.orders[k], Act(t, op).orders[k])
  {
    var c := RowAfter(t, op, k);
    ChangeKeepsPlacement(t.orders[k], c);
  }

  /** What was placed stays: nothing but a replay of the placement writes the placement's columns. */
  lemma {:induction false} PlacementStays(t: Tables, ops: seq<Op>, k: OrderKey)
    requires k in t.orders && forall i :: 0 <= i < |ops| ==> !PlacesRow(ops[i], k)
    ensures k in Play(t, ops).orders && SamePlacement(t.orders[k], Play(t, ops).orders[k])
    decreases |ops|
  {
    if ops != [] {
      OnePlacementStays(t, ops[0], k);
      PlacementStays(Act(t, ops[0]), ops[1..], k);
    }
  }

  // ---------------------------------------------------------------- deals

  /** The seller's note of a fill: that of its only ask leg; none if neither leg is a known ask. */
  lemma SellerIsTheAsk(orders: Orders, book: Address, f: Fill, ask: OrderKey, other: OrderKey)
    requires {ask, other} == Legs(book, f)
    ensures (ask in orders && !orders[ask].isBuy) && (other in orders ==> other == ask || orders[other].isBuy) ==>
              SellerNote(orders, book, f) == orders[ask].note
    ensures (forall k :: k in Legs(book, f) && k in orders ==> orders[k].isBuy) ==>
              SellerNote(orders, book, f) == None
    ensures SellerNote(orders, book, f).Some? ==>
              exists k :: k in Legs(book, f) && k in orders && !orders[k].isBuy
                          && orders[k].note == SellerNote(orders, book, f)
  {
    var maker, taker := OrderKey(book, f.makerId), OrderKey(book, f.takerId);
    assert maker in Legs(book, f) && taker in Legs(book, f);
    assert ask in Legs(book, f) && other in Legs(book, f);
    assert maker in {ask, other} && taker in {ask, other};
  }

  /**
   What a fill makes of the deal row `d`: first book and first seller are kept; the buyer of the later chain
   order wins and a known one is never blanked; the position never goes back; the deposit is untouched.
   */
  ghost predicate Linked(
    d: Deal, d': Deal, book: Address, seller: Option<Address>, buyer: Option<Address>, order: ChainOrder)
  {
    var later := d.lastChainOrder.None? || order > d.lastChainOrder.value;
    && d'.book == (if d.book.Some? then d.book else Some(book))
    && d'.sellerNote == (if d.sellerNote.Some? then d.sellerNote else seller)
    && (later && buyer.Some? ==> d'.buyerNote == buyer)
    && (!later && d.buyerNote.Some? ==> d'.buyerNote == d.buyerNote)
    && (buyer.None? ==> d'.buyerNote == d.buyerNote)
    && (d.buyerNote.None? ==> d'.buyerNote == buyer)
    && d'.deposit == d.deposit
    && d'.lastChainOrder == (if later then Some(order) else d.lastChainOrder)
  }

  /** The deal of the fill's token contract is written or linked; every other deal is untouched. */
  ghost predicate DealsAfterFill(
    deals: map<Address, Deal>, deals': map<Address, Deal>, seller: Option<Address>, book: Address, f: Fill,
    order: ChainOrder)
  {
    if f.sellerTc.None? then deals' == deals
    else
      var tc := f.sellerTc.value;
      && deals'.Keys == deals.Keys + {tc}
      && (forall other :: other in deals && other != tc ==> deals'[other] == deals[other])
      && if tc in deals then Linked(deals[tc], deals'[tc], book, seller, f.buyerNote, order)
         else deals'[tc] == Deal(Some(book), seller, f.buyerNote, None, Some(order))
  }

  lemma LinkedShows(deals: map<Address, Deal>, seller: Option<Address>, book: Address, f: Fill, order: ChainOrder)
    ensures DealsAfterFill(deals, LinkedDeals(deals, seller, book, f, order), seller, book, f, order)
  {
  }

  /** A fill that is applied or repaired writes the deal of its token contract, and no other. */
  lemma FillLinksDeal(t: Tables, op: Op, k: OrderKey)
    requires NamesLeg(op, k)
    requires op.Orphan? || !Waits(t, op.event)
    ensures var f := op.event.payload.fill;
            DealsAfterFill(t.deals, Act(t, op).deals, SellerNote(t.orders, k.book, f), k.book, f, op.order)
  {
    var e, f := op.event, op.event.payload.fill;
    InferenceErasure.FilledParts(t, k.book, f, At(op));
    InferenceErasure.FilledParts(SeedMarket(t, k.book, e.time), k.book, f, At(op));
    LinkedShows(t.deals, SellerNote(t.orders, k.book, f), k.book, f, op.order);
  }

  /** A new ask for the deal's token contract, on a funded deal and later than its position. */
  predicate ClosesCycle(d: Deal, p: Payload, tc: Address, order: ChainOrder) {
    && p.OrderPlaced? && !p.isBuy && p.tokenContract == tc && tc != ZERO_ADDRESS
    && d.deposit.Some? && (d.lastChainOrder.Some? ==> order > d.lastChainOrder.value)
  }

  /**
   An ask with a token contract ends the funding cycle of a funded deal it comes later than: deposit and buyer
   are gone and the position is the ask's. Every other placement leaves every deal alone.
   */
  lemma AskEndsCycle(t: Tables, op: Op, tc: Address)
    requires op.Deliver? && op.event.src.Some? && IsPlacement(op.event.payload)
    ensures var p, d := op.event.payload, Act(t, op).deals;
            && d.Keys == t.deals.Keys
            && (tc in t.deals ==>
                  var was := t.deals[tc];
                  if ClosesCycle(was, p, tc, op.order)
                  then d[tc] == Deal(was.book, was.sellerNote, None, None, Some(op.order))
                  else d[tc] == was)
  {
    var e := op.event;
    var seeded := SeedMarket(t, e.src.value, e.time);
    PlacedDeals(seeded, e.src.value, e.payload.id, e.payload, At(op), tc);
  }

  lemma PlacedDeals(t: Tables, book: Address, id: nat, p: Payload, at: Stamp, tc: Address)
    requires IsPlacement(p)
    ensures var d := ApplyPlaced(t, book, id, PlacementOf(p), at).deals;
            && d.Keys == t.deals.Keys
            && (tc in t.deals ==>
                  var was := t.deals[tc];
                  if ClosesCycle(was, p, tc, at.order)
                  then d[tc] == Deal(was.book, was.sellerNote, None, None, Some(at.order))
                  else d[tc] == was)
  {
  }
}
