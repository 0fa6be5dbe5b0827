/**
 Runs of the inference tables: delivered events, orphan repairs and sweeps in any order.
 The row lens says what one operation does to one existing row; the whole-run laws about
 order rows are read off it.
 */
module InferenceRuns {
  import opened Prelude
  import opened InferenceModel

  datatype Op =
    | Deliver(event: Event, order: ChainOrder)
    | Orphan(event: Event, order: ChainOrder)
    | SweepIds(book: Address, ids: set<nat>)

  /** A failed delivery or repair is rolled back. */
  function Act(t: Tables, op: Op): Tables {
    match op
    case Deliver(e, order) => (match Project(t, e, order) case Failed => t case o => o.tables)
    case Orphan(e, order) => (match Repair(t, e, order) case None => t case Some(t') => t')
    case SweepIds(book, ids) => Sweep(t, book, ids)
  }

  function Play(t: Tables, ops: seq<Op>): Tables
    decreases |ops|
  {
    if ops == [] then t else Play(Act(t, ops[0]), ops[1..])
  }

  /** Playing `a + b` is playing `b` from where `a` ended. */
  lemma {:induction false} PlayConcat(t: Tables, a: seq<Op>, b: seq<Op>)
    ensures Play(t, a + b) == Play(Play(t, a), b)
    decreases |a|
  {
    if a == [] {
      assert a + b == b;
    } else {
      assert (a + b)[1..] == a[1..] + b;
      PlayConcat(Act(t, a[0]), a[1..], b);
    }
  }

  type Orders = map<OrderKey, Order>

  const EMPTY: Tables := Tables(map[], map[], map[], map[])

  // ---------------------------------------------------------------- the row lens

  /** What an operation can do to one existing order row. */
  datatype Change =
    | Stay
    | ByReplay(p: Placement, at: Stamp)
    | ByFill(ticks: nat, at: Stamp)
    | ByCancel(at: Stamp)
    | ByExpiry(at: Stamp)
    | BySweep

  function Changed(o: Order, c: Change): Order {
    match c
    case Stay => o
    case ByReplay(p, at) => ReplayRow(o, p, at)
    case ByFill(ticks, at) => FillRow(o, ticks, at)
    case ByCancel(at) => CancelRow(o, at)
    case ByExpiry(at) => ExpireRow(o, at)
    case BySweep => SweepRow(o)
  }

  predicate IsPlacement(p: Payload) {
    p.OrderPlaced? || p.SubscriptionPlaced?
  }

  function ChangeAt(orders: Orders, op: Op, k: OrderKey): Change {
    match op
    case SweepIds(book, ids) => if k.book == book && k.id in ids then BySweep else Stay
    case Orphan(e, order) =>
      if e.src == Some(k.book) && e.payload.OrderFilled? && k in Legs(k.book, e.payload.fill)
      then ByFill(e.payload.fill.ticks, Stamp(order, e.time)) else Stay
    case Deliver(e, order) =>
      if e.src != Some(k.book) then Stay
      else
        var at := Stamp(order, e.time);
        match e.payload
        case OrderPlaced(id, _, _, _, _, _, _) => if id == k.id then ByReplay(PlacementOf(e.payload), at) else Stay
        case SubscriptionPlaced(id, _, _, _) => if id == k.id then ByReplay(PlacementOf(e.payload), at) else Stay
        case OrderCancelled(id) => if id == k.id then ByCancel(at) else Stay
        case OrderExpired(id) => if id == k.id then ByExpiry(at) else Stay
        case OrderFilled(f) =>
          if Legs(k.book, f) <= orders.Keys && k in Legs(k.book, f) then ByFill(f.ticks, at) else Stay
        case Observed => Stay
        case Malformed => Stay
        case Unrecognised => Stay
  }

  /** The key a delivered placement names. */
  function PlacedKey(op: Op): Option<OrderKey> {
    if op.Deliver? && op.event.src.Some? && IsPlacement(op.event.payload)
    then Some(OrderKey(op.event.src.value, op.event.payload.id)) else None
  }

  function PlacedRow(op: Op): Order
    requires PlacedKey(op).Some?
  {
    FreshRow(PlacementOf(op.event.payload), Stamp(op.order, op.event.time))
  }

  /** The orders table after an operation, row by row: existing rows by the lens, a new row only by a placement. */
  function OrdersAfter(orders: Orders, op: Op): Orders {
    var kept := map k | k in orders :: Changed(orders[k], ChangeAt(orders, op, k));
    var k := PlacedKey(op);
    if k.Some? && k.value !in orders then kept[k.value := PlacedRow(op)] else kept
  }

  function PlayOrders(orders: Orders, ops: seq<Op>): Orders
    decreases |ops|
  {
    if ops == [] then orders else PlayOrders(OrdersAfter(orders, ops[0]), ops[1..])
  }

  /** What the projector and the repair write to the orders table, whatever the other tables hold. */
  function ProjectedOrders(orders: Orders, e: Event, order: ChainOrder): Orders {
    if e.src.None? then orders
    else
      var book, at := e.src.value, Stamp(order, e.time);
      match e.payload
      case OrderPlaced(id, _, _, _, _, _, _) => Upsert(orders, OrderKey(book, id), PlacementOf(e.payload), at)
      case SubscriptionPlaced(id, _, _, _) => Upsert(orders, OrderKey(book, id), PlacementOf(e.payload), at)
      case OrderCancelled(id) =>
        var k := OrderKey(book, id);
        if k in orders then orders[k := CancelRow(orders[k], at)] else orders
      case OrderExpired(id) =>
        var k := OrderKey(book, id);
        if k in orders then orders[k := ExpireRow(orders[k], at)] else orders
      case OrderFilled(f) => if Legs(book, f) <= orders.Keys then DecrementLegs(orders, book, f, at) else orders
      case Observed => orders
      case Malformed => orders
      case Unrecognised => orders
  }

  lemma FilledOrders(t: Tables, book: Address, f: Fill, at: Stamp)
    ensures ApplyFilled(t, book, f, at).orders == DecrementLegs(t.orders, book, f, at)
  {
  }

  lemma PlacedOrders(t: Tables, book: Address, id: nat, p: Placement, at: Stamp)
    ensures ApplyPlaced(t, book, id, p, at).orders == Upsert(t.orders, OrderKey(book, id), p, at)
  {
  }

  lemma DeliverOrders(t: Tables, e: Event, order: ChainOrder)
    ensures Act(t, Deliver(e, order)).orders == ProjectedOrders(t.orders, e, order)
  {
    if e.src.Some? {
      var book, at := e.src.value, Stamp(order, e.time);
      var seeded := SeedMarket(t, book, e.time);
      assert seeded.orders == t.orders;
      match e.payload
      case OrderPlaced(id, _, _, _, _, _, _) => PlacedOrders(seeded, book, id, PlacementOf(e.payload), at);
      case SubscriptionPlaced(id, _, _, _) => PlacedOrders(seeded, book, id, PlacementOf(e.payload), at);
      case OrderFilled(f) =>
        FilledOrders(seeded, book, f, at);
        assert BothLegs(t, book, f) <==> Legs(book, f) <= t.orders.Keys;
      case _ =>
    }
  }

  lemma OrphanOrders(t: Tables, e: Event, order: ChainOrder)
    ensures Act(t, Orphan(e, order)).orders ==
            if e.src.Some? && e.payload.OrderFilled?
            then DecrementLegs(t.orders, e.src.value, e.payload.fill, Stamp(order, e.time)) else t.orders
  {
  }

  lemma ProjectedIsLens(orders: Orders, e: Event, order: ChainOrder)
    ensures ProjectedOrders(orders, e, order) == OrdersAfter(orders, Deliver(e, order))
  {
  }

  /**
   The lens is complete: whatever the other tables hold, an operation changes the orders table
   exactly as it says, so no row is ever removed and rows evolve independently of each other.
   */
  lemma OrdersFollowLens(t: Tables, op: Op)
    ensures Act(t, op).orders == OrdersAfter(t.orders, op)
  {
    match op
    case SweepIds(_, _) =>
    case Deliver(e, order) =>
      DeliverOrders(t, e, order);
      ProjectedIsLens(t.orders, e, order);
    case Orphan(e, order) =>
      OrphanOrders(t, e, order);
  }

  lemma {:induction false} RunsFollowLens(t: Tables, ops: seq<Op>)
    ensures Play(t, ops).orders == PlayOrders(t.orders, ops)
    decreases |ops|
  {
    if ops != [] {
      OrdersFollowLens(t, ops[0]);
      RunsFollowLens(Act(t, ops[0]), ops[1..]);
    }
  }

  // ---------------------------------------------------------------- reachable rows

  /** The chain only rests orders of positive size. */
  predicate PositiveSize(op: Op) {
    op.Deliver? && IsPlacement(op.event.payload) ==> op.event.payload.ticks > 0
  }

  predicate SoundRow(o: Order) {
    && o.remaining <= o.initial
    && (o.status == Open ==> o.remaining > 0)
    && (o.status == Filled && o.isBuy ==> o.remaining == 0)
    && (o.swept ==> o.status == Cancelled)
  }

  ghost predicate SoundRows(orders: Orders) {
    forall k :: k in orders ==> SoundRow(orders[k])
  }

  lemma ChangeKeepsSound(orders: Orders, op: Op, k: OrderKey)
    requires k in orders && SoundRow(orders[k]) && PositiveSize(op)
    ensures SoundRow(Changed(orders[k], ChangeAt(orders, op, k)))
  {
  }

  lemma StepKeepsSound(orders: Orders, op: Op)
    requires SoundRows(orders) && PositiveSize(op)
    ensures SoundRows(OrdersAfter(orders, op))
  {
    forall k | k in OrdersAfter(orders, op) ensures SoundRow(OrdersAfter(orders, op)[k]) {
      if k in orders {
        ChangeKeepsSound(orders, op, k);
        assert OrdersAfter(orders, op)[k] == Changed(orders[k], ChangeAt(orders, op, k));
      }
    }
  }

  lemma {:induction false} PlayKeepsSound(orders: Orders, ops: seq<Op>)
    requires SoundRows(orders) && forall i :: 0 <= i < |ops| ==> PositiveSize(ops[i])
    ensures SoundRows(PlayOrders(orders, ops))
    decreases |ops|
  {
    if ops != [] {
      assert PositiveSize(ops[0]);
      StepKeepsSound(orders, ops[0]);
      PlayKeepsSound(OrdersAfter(orders, ops[0]), ops[1..]);
    }
  }

  /**
   Every reachable row: 0 <= remaining <= initial, OPEN means resting, a filled bid is used up, swept
   means cancelled.
   */
  lemma ReachableRowsAreSound(t: Tables, ops: seq<Op>, k: OrderKey)
    requires t.orders == map[]
    requires forall i :: 0 <= i < |ops| ==> PositiveSize(ops[i])
    requires k in Play(t, ops).orders
    ensures var o := Play(t, ops).orders[k];
            && o.remaining <= o.initial
            && (o.status == Open ==> o.remaining > 0)
            && (o.status == Filled && o.isBuy ==> o.remaining == 0)
            && (o.swept ==> o.status == Cancelled)
  {
    RunsFollowLens(t, ops);
    PlayKeepsSound(t.orders, ops);
  }

  // ---------------------------------------------------------------- absorption

  lemma {:induction false} TerminalRowAbsorbs(orders: Orders, ops: seq<Op>, k: OrderKey)
    requires k in orders && Terminal(orders[k])
    ensures k in PlayOrders(orders, ops)
    ensures var o, o' := orders[k], PlayOrders(orders, ops)[k];
            && Terminal(o') && o'.status == o.status && o'.remaining == o.remaining
            && (o.status == Filled ==> o' == o)
    decreases |ops|
  {
    if ops != [] {
      assert OrdersAfter(orders, ops[0])[k] == Changed(orders[k], ChangeAt(orders, ops[0], k));
      TerminalRowAbsorbs(OrdersAfter(orders, ops[0]), ops[1..], k);
    }
  }

  /**
   A row once FILLED is frozen in every column; a row once cancelled by an event keeps its
   status, its remaining amount and its authority in every continuation.
   */
  lemma TerminalRowsAbsorb(t: Tables, ops: seq<Op>, k: OrderKey)
    requires k in t.orders && Terminal(t.orders[k])
    ensures k in Play(t, ops).orders
    ensures var o, o' := t.orders[k], Play(t, ops).orders[k];
            && Terminal(o') && o'.status == o.status && o'.remaining == o.remaining
            && (o.status == Filled ==> o' == o)
  {
    RunsFollowLens(t, ops);
    TerminalRowAbsorbs(t.orders, ops, k);
  }

  // ---------------------------------------------------------------- EXPIRED

  /** A change that takes an EXPIRED row out of that status: a fill, a cancel, or a replay while untouched. */
  predicate Revives(o: Order, c: Change) {
    c.ByFill? || c.ByCancel? || (c.ByReplay? && o.remaining == o.initial)
  }

  lemma ExpiredChange(o: Order, c: Change)
    requires o.status == Expired
    ensures Changed(o, c).status != Expired <==> Revives(o, c)
    ensures !Revives(o, c) ==> Changed(o, c) == o
  {
  }

  lemma {:induction false} PlayOrdersLast(orders: Orders, ops: seq<Op>, op: Op)
    ensures PlayOrders(orders, ops + [op]) == OrdersAfter(PlayOrders(orders, ops), op)
    decreases |ops|
  {
    if ops == [] {
      assert ops + [op] == [op] && [op][1..] == [];
    } else {
      assert (ops + [op])[1..] == ops[1..] + [op];
      PlayOrdersLast(OrdersAfter(orders, ops[0]), ops[1..], op);
    }
  }

  /** The rows after the first `n` operations. */
  function Prefix(orders: Orders, ops: seq<Op>, n: nat): Orders
    requires n <= |ops|
  {
    PlayOrders(orders, ops[..n])
  }

  lemma PrefixStep(orders: Orders, ops: seq<Op>, n: nat, k: OrderKey)
    requires n < |ops| && k in Prefix(orders, ops, n)
    ensures k in Prefix(orders, ops, n + 1)
    ensures var before := Prefix(orders, ops, n);
            Prefix(orders, ops, n + 1)[k] == Changed(before[k], ChangeAt(before, ops[n], k))
  {
    assert ops[..n + 1] == ops[..n] + [ops[n]];
    PlayOrdersLast(orders, ops[..n], ops[n]);
  }

  /** The n-th operation does not revive the row `o` under `k`. */
  predicate SparedBy(o: Order, orders: Orders, ops: seq<Op>, k: OrderKey, n: nat)
    requires n < |ops|
  {
    !Revives(o, ChangeAt(Prefix(orders, ops, n), ops[n], k))
  }

  predicate ExpiredAt(orders: Orders, ops: seq<Op>, k: OrderKey, n: nat)
    requires n <= |ops|
  {
    k in Prefix(orders, ops, n) && Prefix(orders, ops, n)[k].status == Expired
  }

  /** Spared so far, the row is frozen; expired so far, it was spared. */
  lemma {:induction false} ExpiredPrefix(orders: Orders, ops: seq<Op>, k: OrderKey, n: nat)
    requires n <= |ops| && k in orders && orders[k].status == Expired
    requires || (forall m: nat :: m < n ==> SparedBy(orders[k], orders, ops, k, m))
             || (forall m: nat :: m <= n ==> ExpiredAt(orders, ops, k, m))
    ensures k in Prefix(orders, ops, n) && Prefix(orders, ops, n)[k] == orders[k]
    ensures forall m: nat :: m < n ==> SparedBy(orders[k], orders, ops, k, m)
    decreases n
  {
    if n > 0 {
      ExpiredPrefix(orders, ops, k, n - 1);
      PrefixStep(orders, ops, n - 1, k);
      var before := Prefix(orders, ops, n - 1);
      ExpiredChange(before[k], ChangeAt(before, ops[n - 1], k));
      assert SparedBy(orders[k], orders, ops, k, n - 1) by {
        assert (forall m: nat :: m <= n ==> ExpiredAt(orders, ops, k, m)) ==> ExpiredAt(orders, ops, k, n);
      }
    }
  }

  /**
   EXPIRED is not absorbing. A row stays EXPIRED through a run exactly when no operation of the run
   is a fill that reaches it, a cancel of it, or a replay of its placement while it is untouched;
   and then the run leaves every column of it alone.
   */
  lemma ExpiredStaysIffSpared(t: Tables, ops: seq<Op>, k: OrderKey)
    requires k in t.orders && t.orders[k].status == Expired
    ensures (forall n: nat :: n <= |ops| ==> ExpiredAt(t.orders, ops, k, n))
            <==> (forall n: nat :: n < |ops| ==> SparedBy(t.orders[k], t.orders, ops, k, n))
    ensures (forall n: nat :: n < |ops| ==> SparedBy(t.orders[k], t.orders, ops, k, n)) ==>
              k in Play(t, ops).orders && Play(t, ops).orders[k] == t.orders[k]
  {
    var expired := forall n: nat :: n <= |ops| ==> ExpiredAt(t.orders, ops, k, n);
    var spared := forall n: nat :: n < |ops| ==> SparedBy(t.orders[k], t.orders, ops, k, n);
    if expired {
      ExpiredPrefix(t.orders, ops, k, |ops|);
    }
    if spared {
      forall n: nat | n <= |ops| ensures ExpiredAt(t.orders, ops, k, n) {
        ExpiredPrefix(t.orders, ops, k, n);
      }
      ExpiredPrefix(t.orders, ops, k, |ops|);
      assert ops[..|ops|] == ops;
      RunsFollowLens(t, ops);
    }
  }

  /** Place, expire, and replay the same placement: the order is open again. */
  lemma ReplayReopensExpired()
    ensures var placed := Deliver(Event(Some("book"), None, SubscriptionPlaced(1, 10, 5, "note")), 1);
            var expired := Deliver(Event(Some("book"), None, OrderExpired(1)), 2);
            var t := Play(EMPTY, [placed, expired, placed]);
            && OrderKey("book", 1) in Play(EMPTY, [placed, expired]).orders
            && Play(EMPTY, [placed, expired]).orders[OrderKey("book", 1)].status == Expired
            && OrderKey("book", 1) in t.orders && t.orders[OrderKey("book", 1)].status == Open
  {
    var placed := Deliver(Event(Some("book"), None, SubscriptionPlaced(1, 10, 5, "note")), 1);
    var expired := Deliver(Event(Some("book"), None, OrderExpired(1)), 2);
    var t1 := Act(EMPTY, placed);
    var t2 := Act(t1, expired);
    var t3 := Act(t2, placed);
    assert Play(t2, []) == t2 && Play(t3, []) == t3;
    assert Play(t1, [expired]) == t2 && Play(t2, [placed]) == t3;
    assert [placed, expired][1..] == [expired] && [expired][1..] == [] && [placed][1..] == [];
    assert [placed, expired, placed][1..] == [expired, placed] && [expired, placed][1..] == [placed];
    assert Play(t1, [expired, placed]) == t3;
  }
}
