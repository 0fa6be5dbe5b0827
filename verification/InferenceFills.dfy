/** Fills on a resting bid add up, in any order and with any sweeps between; an ask closes on its first fill. */
module InferenceFills {
  import opened Prelude
  import opened InferenceModel
  import opened InferenceRuns

  /** No placement, cancel or expiry of `k`; fills and sweeps, and anything on other rows, are free. */
  predicate LeavesToFills(op: Op, k: OrderKey) {
    op.Deliver? && op.event.src == Some(k.book) ==>
      match op.event.payload
      case OrderPlaced(id, _, _, _, _, _, _) => id != k.id
      case SubscriptionPlaced(id, _, _, _) => id != k.id
      case OrderCancelled(id) => id != k.id
      case OrderExpired(id) => id != k.id
      case _ => true
  }

  /** A fill, or the repair of one, with `k` as a leg. */
  predicate TicksNamed(op: Op, k: OrderKey) {
    && !op.SweepIds? && op.event.src == Some(k.book) && op.event.payload.OrderFilled?
    && k in Legs(k.book, op.event.payload.fill)
  }

  /** The ticks `op` matches against `k`, once its legs are placed. */
  function TicksOf(op: Op, k: OrderKey): nat {
    if TicksNamed(op, k) then op.event.payload.fill.ticks else 0
  }

  function TotalTicks(ops: seq<Op>, k: OrderKey): nat
    decreases |ops|
  {
    if ops == [] then 0 else TicksOf(ops[0], k) + TotalTicks(ops[1..], k)
  }

  /** Every delivered fill that names `k` finds both its legs in `keys`. */
  ghost predicate LegsPlaced(keys: set<OrderKey>, op: Op, k: OrderKey) {
    (op.Deliver? && TicksNamed(op, k)) ==> Legs(k.book, op.event.payload.fill) <= keys
  }

  ghost predicate OnlyFills(keys: set<OrderKey>, ops: seq<Op>, k: OrderKey) {
    forall i :: 0 <= i < |ops| ==> LeavesToFills(ops[i], k) && LegsPlaced(keys, ops[i], k)
  }

  predicate FreshBid(o: Order) {
    o.isBuy && o.status == Open && !o.swept && o.remaining == o.initial && o.initial > 0
  }

  /** A bid of size `initial` after `sum` ticks were matched against it. */
  predicate MatchedBy(o: Order, initial: nat, sum: nat) {
    && o.isBuy && o.initial == initial
    && o.remaining == Minus(initial, sum)
    && (o.status == Filled <==> sum >= initial)
    && (o.status != Filled ==> (o.status == Open && !o.swept) || (o.status == Cancelled && o.swept))
  }

  lemma ChangeAddsTicks(orders: Orders, op: Op, k: OrderKey, keys: set<OrderKey>, initial: nat, sum: nat)
    requires k in orders && keys <= orders.Keys && initial > 0
    requires LeavesToFills(op, k) && LegsPlaced(keys, op, k)
    requires MatchedBy(orders[k], initial, sum)
    ensures MatchedBy(Changed(orders[k], ChangeAt(orders, op, k)), initial, sum + TicksOf(op, k))
  {
  }

  lemma {:induction false} FillsAccumulate(
    orders: Orders, ops: seq<Op>, k: OrderKey, keys: set<OrderKey>, initial: nat, sum: nat)
    requires k in orders && keys <= orders.Keys && initial > 0
    requires OnlyFills(keys, ops, k) && MatchedBy(orders[k], initial, sum)
    ensures k in PlayOrders(orders, ops)
    ensures MatchedBy(PlayOrders(orders, ops)[k], initial, sum + TotalTicks(ops, k))
    decreases |ops|
  {
    if ops != [] {
      var next := OrdersAfter(orders, ops[0]);
      ChangeAddsTicks(orders, ops[0], k, keys, initial, sum);
      assert next[k] == Changed(orders[k], ChangeAt(orders, ops[0], k));
      FillsAccumulate(next, ops[1..], k, keys, initial, sum + TicksOf(ops[0], k));
    }
  }

  /**
   A fresh bid after any fills and sweeps: remaining = max(initial - sum, 0), FILLED exactly when the
   sum reaches initial.
   */
  lemma FillsAddUp(t: Tables, ops: seq<Op>, k: OrderKey)
    requires k in t.orders && FreshBid(t.orders[k])
    requires OnlyFills(t.orders.Keys, ops, k)
    ensures k in Play(t, ops).orders
    ensures var o, o' := t.orders[k], Play(t, ops).orders[k];
            && o'.remaining == (if TotalTicks(ops, k) >= o.initial then 0 else o.initial - TotalTicks(ops, k))
            && (o'.status == Filled <==> TotalTicks(ops, k) >= o.initial)
  {
    RunsFollowLens(t, ops);
    FillsAccumulate(t.orders, ops, k, t.orders.Keys, t.orders[k].initial, 0);
  }

  // ---------------------------------------------------------------- asks

  /** An ask nothing has been matched against, swept or not. */
  predicate RestingAsk(o: Order, initial: nat) {
    && !o.isBuy && o.initial == initial && o.remaining == initial
    && (if o.swept then o.status == Cancelled else o.status == Open)
  }

  predicate FreshAsk(o: Order) {
    !o.isBuy && o.status == Open && !o.swept && o.remaining == o.initial
  }

  /** The n-th operation is the first fill of `k`. */
  ghost predicate FirstFill(ops: seq<Op>, k: OrderKey, n: nat) {
    n < |ops| && TicksNamed(ops[n], k) && forall i :: 0 <= i < n ==> !TicksNamed(ops[i], k)
  }

  lemma AskChange(orders: Orders, op: Op, k: OrderKey, keys: set<OrderKey>, initial: nat)
    requires k in orders && keys <= orders.Keys && RestingAsk(orders[k], initial)
    requires LeavesToFills(op, k) && LegsPlaced(keys, op, k)
    ensures var o' := OrdersAfter(orders, op)[k];
            if TicksNamed(op, k) then
              o'.status == Filled && o'.remaining == if TicksOf(op, k) >= initial then 0 else initial - TicksOf(op, k)
            else RestingAsk(o', initial)
  {
    assert OrdersAfter(orders, op)[k] == Changed(orders[k], ChangeAt(orders, op, k));
  }

  lemma {:induction false} UnmatchedAskRests(
    orders: Orders, ops: seq<Op>, k: OrderKey, keys: set<OrderKey>, initial: nat)
    requires k in orders && keys <= orders.Keys && RestingAsk(orders[k], initial)
    requires OnlyFills(keys, ops, k) && forall i :: 0 <= i < |ops| ==> !TicksNamed(ops[i], k)
    ensures k in PlayOrders(orders, ops) && RestingAsk(PlayOrders(orders, ops)[k], initial)
    decreases |ops|
  {
    if ops != [] {
      AskChange(orders, ops[0], k, keys, initial);
      UnmatchedAskRests(OrdersAfter(orders, ops[0]), ops[1..], k, keys, initial);
    }
  }

  lemma {:induction false} FirstFillClosesAsk(
    orders: Orders, ops: seq<Op>, k: OrderKey, keys: set<OrderKey>, initial: nat, n: nat)
    requires k in orders && keys <= orders.Keys && RestingAsk(orders[k], initial)
    requires OnlyFills(keys, ops, k) && FirstFill(ops, k, n)
    ensures k in PlayOrders(orders, ops)
    ensures var o', ticks := PlayOrders(orders, ops)[k], TicksOf(ops[n], k);
            o'.status == Filled && o'.remaining == if ticks >= initial then 0 else initial - ticks
    decreases |ops|
  {
    var next, rest := OrdersAfter(orders, ops[0]), ops[1..];
    AskChange(orders, ops[0], k, keys, initial);
    if n == 0 {
      TerminalRowAbsorbs(next, rest, k);
    } else {
      assert FirstFill(rest, k, n - 1) && rest[n - 1] == ops[n];
      FirstFillClosesAsk(next, rest, k, keys, initial, n - 1);
    }
  }

  /**
   A fresh ask after any fills and sweeps: FILLED exactly when a fill has reached it, and then with what its
   first fill left, max(initial - ticks, 0), whatever came after.
   */
  lemma AskClosesOnFirstFill(t: Tables, ops: seq<Op>, k: OrderKey)
    requires k in t.orders && FreshAsk(t.orders[k])
    requires OnlyFills(t.orders.Keys, ops, k)
    ensures k in Play(t, ops).orders
    ensures var o, o' := t.orders[k], Play(t, ops).orders[k];
            && (o'.status == Filled <==> exists n :: 0 <= n < |ops| && TicksNamed(ops[n], k))
            && (o'.status != Filled ==> o'.remaining == o.initial)
            && forall n: nat :: FirstFill(ops, k, n) ==>
                 var ticks := ops[n].event.payload.fill.ticks;
                 o'.remaining == if ticks >= o.initial then 0 else o.initial - ticks
  {
    var initial, keys := t.orders[k].initial, t.orders.Keys;
    RunsFollowLens(t, ops);
    if n: nat :| n < |ops| && TicksNamed(ops[n], k) {
      var m := FirstOf(ops, k, n);
      FirstFillClosesAsk(t.orders, ops, k, keys, initial, m);
      assert forall n: nat :: FirstFill(ops, k, n) ==> n == m;
    } else {
      UnmatchedAskRests(t.orders, ops, k, keys, initial);
    }
  }

  lemma {:induction false} FirstOf(ops: seq<Op>, k: OrderKey, n: nat) returns (m: nat)
    requires n < |ops| && TicksNamed(ops[n], k)
    ensures m <= n && FirstFill(ops, k, m)
    decreases n
  {
    m := n;
    if i: nat :| i < n && TicksNamed(ops[i], k) {
      m := FirstOf(ops, k, i);
    }
  }

  // ---------------------------------------------------------------- order of fills

  lemma {:induction false} TotalSplits(a: seq<Op>, b: seq<Op>, k: OrderKey)
    ensures TotalTicks(a + b, k) == TotalTicks(a, k) + TotalTicks(b, k)
    decreases |a|
  {
    if a == [] {
      assert a + b == b;
    } else {
      assert (a + b)[1..] == a[1..] + b;
      TotalSplits(a[1..], b, k);
    }
  }

  lemma TotalWithout(b: seq<Op>, i: nat, k: OrderKey)
    requires i < |b|
    ensures TotalTicks(b, k) == TicksOf(b[i], k) + TotalTicks(b[..i] + b[i + 1..], k)
  {
    TotalSplits(b[..i], b[i..], k);
    TotalSplits(b[..i], b[i + 1..], k);
    assert b == b[..i] + b[i..];
    assert b[i..][1..] == b[i + 1..];
  }

  lemma {:induction false} TotalIgnoresOrder(a: seq<Op>, b: seq<Op>, k: OrderKey)
    requires multiset(a) == multiset(b)
    ensures TotalTicks(a, k) == TotalTicks(b, k)
    decreases |a|
  {
    if a == [] {
      assert |multiset(b)| == 0;
    } else {
      var i := TakeOut(a, b);
      TotalIgnoresOrder(a[1..], b[..i] + b[i + 1..], k);
      TotalWithout(b, i, k);
    }
  }

  /** Reordering the fills and sweeps changes neither the remainder nor whether the bid is filled. */
  lemma FillOrderIsIrrelevant(t: Tables, a: seq<Op>, b: seq<Op>, k: OrderKey)
    requires k in t.orders && FreshBid(t.orders[k])
    requires OnlyFills(t.orders.Keys, a, k) && multiset(a) == multiset(b)
    ensures k in Play(t, a).orders && k in Play(t, b).orders
    ensures Play(t, a).orders[k].remaining == Play(t, b).orders[k].remaining
    ensures Play(t, a).orders[k].status == Filled <==> Play(t, b).orders[k].status == Filled
  {
    forall i | 0 <= i < |b| ensures LeavesToFills(b[i], k) && LegsPlaced(t.orders.Keys, b[i], k) {
      assert b[i] in multiset(a);
      var j :| 0 <= j < |a| && a[j] == b[i];
    }
    FillsAddUp(t, a, k);
    FillsAddUp(t, b, k);
    TotalIgnoresOrder(a, b, k);
  }
}
