/**
 The inference order book's read model and its projector, as functions on table values:
 every UPDATE and INSERT of the handlers, row by row. Nullable columns are options;
 `swept` stands for `swept_at is not null`; wall-clock bookkeeping columns are left out.
 */
module InferenceModel {
  import opened Prelude

  type Address = string

  const ZERO_ADDRESS: Address := "0:0000000000000000000000000000000000000000000000000000000000000000"

  datatype Status = Open | Filled | Cancelled | Expired

  datatype OrderKey = OrderKey(book: Address, id: nat)

  datatype Order = Order(
    isBuy: bool, price: nat, initial: nat, remaining: nat, isSubscription: bool,
    note: Option<Address>, tokenContract: Option<Address>, deadline: Option<nat>,
    status: Status, swept: bool,
    lastChainOrder: ChainOrder, chainCreatedAt: Option<Seconds>, chainUpdatedAt: Option<Seconds>)

  datatype Market = Market(
    createdAt: Option<Seconds>, reconciled: bool, sweepCursor: Option<nat>, overrideSeq: nat)

  datatype Deal = Deal(
    book: Option<Address>, sellerNote: Option<Address>, buyerNote: Option<Address>,
    deposit: Option<nat>, lastChainOrder: Option<ChainOrder>)

  datatype Trade = Trade(book: Address, price: nat, qty: nat, isBuyerMaker: bool, chainTime: Option<Seconds>)

  datatype Tables = Tables(
    orders: map<OrderKey, Order>, markets: map<Address, Market>,
    deals: map<Address, Deal>, trades: map<ChainOrder, Trade>)

  // ---------------------------------------------------------------- events

  /** What a placement asks the book to rest. */
  datatype Placement = Placement(
    isBuy: bool, price: nat, ticks: nat, isSubscription: bool,
    note: Option<Address>, tokenContract: Option<Address>, deadline: Option<nat>)

  datatype Fill = Fill(
    makerId: nat, takerId: nat, ticks: nat, clearingPrice: nat,
    sellerTc: Option<Address>, buyerNote: Option<Address>)

  datatype Payload =
    | OrderPlaced(id: nat, isBuy: bool, price: nat, ticks: nat, note: Address, tokenContract: Address, deadline: nat)
    | SubscriptionPlaced(id: nat, maxPrice: nat, ticks: nat, buyerNote: Address)
    | OrderCancelled(id: nat)
    | OrderExpired(id: nat)
    | OrderFilled(fill: Fill)
    | Observed        // executed, refunded, rejections, book deployed: nothing to write
    | Malformed       // a mandatory field is missing or unreadable
    | Unrecognised

  /** A decoded event with its emitting book and block time. */
  datatype Event = Event(src: Option<Address>, time: Option<Seconds>, payload: Payload)

  /** When and where an event happened. */
  datatype Stamp = Stamp(order: ChainOrder, time: Option<Seconds>)

  function NonZeroAddress(a: Address): Option<Address> {
    if a == ZERO_ADDRESS then None else Some(a)
  }

  function NonZeroUint(n: nat): Option<nat> {
    if n == 0 then None else Some(n)
  }

  // ---------------------------------------------------------------- one order row

  function FreshRow(p: Placement, at: Stamp): Order {
    Order(p.isBuy, p.price, p.ticks, p.ticks, p.isSubscription, p.note, p.tokenContract, p.deadline,
          Open, false, at.order, at.time, at.time)
  }

  /** The conflict arm's WHERE: only a row that is neither filled nor cancelled and untouched is overwritten. */
  predicate TakesReplay(o: Order) {
    o.status != Filled && o.status != Cancelled && o.remaining == o.initial
  }

  function ReplayRow(o: Order, p: Placement, at: Stamp): Order {
    if !TakesReplay(o) then o
    else
      Order(p.isBuy, p.price, p.ticks, p.ticks, p.isSubscription, p.note,
            Coalesce(p.tokenContract, o.tokenContract), Coalesce(p.deadline, o.deadline),
            Open, o.swept, Greatest(o.lastChainOrder, at.order),
            Coalesce(o.chainCreatedAt, at.time), GreatestOpt(o.chainUpdatedAt, at.time))
  }

  /** A filled row, or one cancelled by an event: a fill leaves it alone entirely. */
  predicate Terminal(o: Order) {
    o.status == Filled || (o.status == Cancelled && !o.swept)
  }

  function Touch(o: Order, at: Stamp): Order {
    o.(lastChainOrder := Greatest(o.lastChainOrder, at.order),
       chainUpdatedAt := GreatestOpt(o.chainUpdatedAt, at.time))
  }

  function Minus(a: nat, b: nat): nat {
    if a <= b then 0 else a - b
  }

  function FillRow(o: Order, ticks: nat, at: Stamp): Order {
    if Terminal(o) then o
    else
      var left := Minus(o.remaining, ticks);
      Touch(o, at).(remaining := left,
                    status := if !o.isBuy || left == 0 then Filled else Open,
                    swept := false)
  }

  function CancelRow(o: Order, at: Stamp): Order {
    if o.status == Filled then o else Touch(o, at).(status := Cancelled, swept := false)
  }

  predicate TakesExpiry(o: Order) {
    o.status == Open || (o.status == Cancelled && o.swept)
  }

  function ExpireRow(o: Order, at: Stamp): Order {
    if TakesExpiry(o) then Touch(o, at).(status := Expired, swept := false) else o
  }

  /** The reconciler's provisional cancel. */
  function SweepRow(o: Order): Order {
    if o.status == Open then o.(status := Cancelled, swept := true) else o
  }

  // ---------------------------------------------------------------- tables

  function SeedMarket(t: Tables, book: Address, time: Option<Seconds>): Tables {
    if book in t.markets then t
    else t.(markets := t.markets[book := Market(time, false, None, 0)])
  }

  function Upsert(orders: map<OrderKey, Order>, k: OrderKey, p: Placement, at: Stamp): map<OrderKey, Order> {
    orders[k := if k in orders then ReplayRow(orders[k], p, at) else FreshRow(p, at)]
  }

  /** A fresh ask on a funded deal ends the previous funding cycle. */
  function EndFundingCycle(deals: map<Address, Deal>, tc: Address, order: ChainOrder): map<Address, Deal> {
    if tc in deals && deals[tc].deposit.Some? && LaterThan(order, deals[tc].lastChainOrder) then
      deals[tc := deals[tc].(buyerNote := None, deposit := None, lastChainOrder := Some(order))]
    else deals
  }

  /** `order > coalesce(last, '')`. */
  predicate LaterThan(order: ChainOrder, last: Option<ChainOrder>) {
    last.None? || order > last.value
  }

  function ApplyPlaced(t: Tables, book: Address, id: nat, p: Placement, at: Stamp): Tables {
    var t' := t.(orders := Upsert(t.orders, OrderKey(book, id), p, at));
    if !p.isBuy && p.tokenContract.Some?
    then t'.(deals := EndFundingCycle(t.deals, p.tokenContract.value, at.order))
    else t'
  }

  /** The rows a fill names. */
  function Legs(book: Address, f: Fill): set<OrderKey> {
    {OrderKey(book, f.makerId), OrderKey(book, f.takerId)}
  }

  predicate AnyLegSwept(orders: map<OrderKey, Order>, book: Address, f: Fill) {
    exists k :: k in Legs(book, f) && k in orders && orders[k].swept
  }

  function DecrementLegs(orders: map<OrderKey, Order>, book: Address, f: Fill, at: Stamp): map<OrderKey, Order> {
    map k | k in orders :: if k in Legs(book, f) then FillRow(orders[k], f.ticks, at) else orders[k]
  }

  /** Overriding a sweep on a book still in discovery restarts its sweep cycle. */
  function RestartSweep(markets: map<Address, Market>, book: Address): map<Address, Market> {
    if book in markets && !markets[book].reconciled
    then markets[book := markets[book].(sweepCursor := None, overrideSeq := markets[book].overrideSeq + 1)]
    else markets
  }

  function ApplyDecrement(t: Tables, book: Address, f: Fill, at: Stamp): Tables {
    t.(orders := DecrementLegs(t.orders, book, f, at),
       markets := if AnyLegSwept(t.orders, book, f) then RestartSweep(t.markets, book) else t.markets)
  }

  /** The note on the SELL leg. SQL takes any one if both legs are asks; here the maker's. */
  function SellerNote(orders: map<OrderKey, Order>, book: Address, f: Fill): Option<Address> {
    var maker, taker := OrderKey(book, f.makerId), OrderKey(book, f.takerId);
    if maker in orders && !orders[maker].isBuy then orders[maker].note
    else if taker in orders && !orders[taker].isBuy then orders[taker].note
    else None
  }

  function NewDeal(book: Address, seller: Option<Address>, buyer: Option<Address>, order: ChainOrder): Deal {
    Deal(Some(book), seller, buyer, None, Some(order))
  }

  /** The deal upsert: first book and seller win, the buyer of the latest chain order wins. */
  function LinkRow(d: Deal, book: Address, seller: Option<Address>, buyer: Option<Address>, order: ChainOrder): Deal {
    Deal(Coalesce(d.book, Some(book)),
         Coalesce(d.sellerNote, seller),
         if LaterThan(order, d.lastChainOrder) then Coalesce(buyer, d.buyerNote) else Coalesce(d.buyerNote, buyer),
         d.deposit,
         Some(if LaterThan(order, d.lastChainOrder) then order else d.lastChainOrder.value))
  }

  function LinkedDeals(deals: map<Address, Deal>, seller: Option<Address>, book: Address, f: Fill, order: ChainOrder)
    : map<Address, Deal>
  {
    if f.sellerTc.None? then deals
    else
      var tc := f.sellerTc.value;
      deals[tc := if tc in deals then LinkRow(deals[tc], book, seller, f.buyerNote, order)
                  else NewDeal(book, seller, f.buyerNote, order)]
  }

  function LinkDeal(t: Tables, book: Address, f: Fill, at: Stamp): Tables {
    t.(deals := LinkedDeals(t.deals, SellerNote(t.orders, book, f), book, f, at.order))
  }

  /** The maker's own side if that row is present, else the inverse of the taker's. */
  function ResolveIsBuyerMaker(orders: map<OrderKey, Order>, book: Address, f: Fill): Option<bool> {
    var maker, taker := OrderKey(book, f.makerId), OrderKey(book, f.takerId);
    if maker in orders then Some(orders[maker].isBuy)
    else if taker in orders then Some(!orders[taker].isBuy)
    else None
  }

  /** The tape upsert: only a null time is ever filled in, and only by an otherwise identical row. */
  function TapeRow(old_: Trade, new_: Trade): Trade {
    if old_.book == new_.book && old_.price == new_.price && old_.qty == new_.qty
       && old_.isBuyerMaker == new_.isBuyerMaker
    then old_.(chainTime := Coalesce(old_.chainTime, new_.chainTime))
    else old_
  }

  function Taped(trades: map<ChainOrder, Trade>, book: Address, f: Fill, at: Stamp, isBuyerMaker: bool)
    : map<ChainOrder, Trade>
  {
    var row := Trade(book, f.clearingPrice, f.ticks, isBuyerMaker, at.time);
    trades[at.order := if at.order in trades then TapeRow(trades[at.order], row) else row]
  }

  function AppendTrade(t: Tables, book: Address, f: Fill, at: Stamp, isBuyerMaker: bool): Tables {
    t.(trades := Taped(t.trades, book, f, at, isBuyerMaker))
  }

  predicate BothLegs(t: Tables, book: Address, f: Fill) {
    OrderKey(book, f.makerId) in t.orders && OrderKey(book, f.takerId) in t.orders
  }

  /** Applies a fill whose legs are both present. */
  function ApplyFilled(t: Tables, book: Address, f: Fill, at: Stamp): Tables {
    var linked := LinkDeal(ApplyDecrement(t, book, f, at), book, f, at);
    match ResolveIsBuyerMaker(t.orders, book, f)
    case Some(side) => AppendTrade(linked, book, f, at, side)
    case None => linked
  }

  /** Repair of an orphaned fill: whichever legs exist are decremented, the match is recorded if its side is known. */
  function RepairFilled(t: Tables, book: Address, f: Fill, at: Stamp): Tables {
    var d := ApplyDecrement(t, book, f, at);
    var taped := match ResolveIsBuyerMaker(t.orders, book, f)
                 case Some(side) => AppendTrade(d, book, f, at, side)
                 case None => d;
    LinkDeal(taped, book, f, at)
  }

  function CancelOrder(t: Tables, k: OrderKey, at: Stamp): Tables
    requires k in t.orders
  {
    t.(orders := t.orders[k := CancelRow(t.orders[k], at)])
  }

  function ExpireOrder(t: Tables, k: OrderKey, at: Stamp): Tables
    requires k in t.orders
  {
    t.(orders := t.orders[k := ExpireRow(t.orders[k], at)])
  }

  function Sweep(t: Tables, book: Address, ids: set<nat>): Tables {
    t.(orders := map k | k in t.orders ::
                   if k.book == book && k.id in ids then SweepRow(t.orders[k]) else t.orders[k])
  }

  // ---------------------------------------------------------------- the projector

  datatype Outcome = Applied(tables: Tables) | Deferred(tables: Tables) | Unknown(tables: Tables) | Failed

  function PlacementOf(p: Payload): Placement
    requires p.OrderPlaced? || p.SubscriptionPlaced?
  {
    match p
    case OrderPlaced(_, isBuy, price, ticks, note, tc, deadline) =>
      Placement(isBuy, price, ticks, false, Some(note), NonZeroAddress(tc), NonZeroUint(deadline))
    case SubscriptionPlaced(_, price, ticks, note) =>
      Placement(true, price, ticks, true, Some(note), None, None)
  }

  function Project(t: Tables, e: Event, order: ChainOrder): Outcome {
    if e.src.None? then Failed
    else
      var book, at := e.src.value, Stamp(order, e.time);
      var seeded := SeedMarket(t, book, e.time);
      match e.payload
      case OrderPlaced(id, _, _, _, _, _, _) => Applied(ApplyPlaced(seeded, book, id, PlacementOf(e.payload), at))
      case SubscriptionPlaced(id, _, _, _) => Applied(ApplyPlaced(seeded, book, id, PlacementOf(e.payload), at))
      case OrderCancelled(id) =>
        var k := OrderKey(book, id);
        if k in t.orders then Applied(CancelOrder(seeded, k, at)) else Deferred(seeded)
      case OrderExpired(id) =>
        var k := OrderKey(book, id);
        if k in t.orders then Applied(ExpireOrder(seeded, k, at)) else Deferred(seeded)
      case OrderFilled(f) =>
        if BothLegs(t, book, f) then Applied(ApplyFilled(seeded, book, f, at)) else Deferred(seeded)
      case Observed => Applied(seeded)
      case Unrecognised => Unknown(seeded)
      case Malformed => Failed
  }

  /** Repair of an expired orphan; only a fill has rows to repair. None is an error. */
  function Repair(t: Tables, e: Event, order: ChainOrder): Option<Tables> {
    match e.payload
    case OrderFilled(f) =>
      if e.src.None? then None else Some(RepairFilled(t, e.src.value, f, Stamp(order, e.time)))
    case Malformed => None
    case _ => Some(t)
  }
}
