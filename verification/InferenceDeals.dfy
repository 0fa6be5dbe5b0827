/** The deal's buyer as a last-writer register, and the immutability of the tape. */
module InferenceDeals {
  import opened Prelude
  import opened InferenceModel
  import opened InferenceRuns
  import opened InferenceErasure

  // ---------------------------------------------------------------- the register

  /** What a deal row knows of its buyer: the note, and the highest chain order folded in. */
  datatype Reg = Reg(buyer: Option<Address>, last: Option<ChainOrder>)

  /** What one fill tells the row. */
  datatype Mark = Mark(order: ChainOrder, buyer: Option<Address>)

  function Write(r: Reg, m: Mark): Reg {
    if LaterThan(m.order, r.last) then Reg(Coalesce(m.buyer, r.buyer), Some(m.order))
    else Reg(Coalesce(r.buyer, m.buyer), r.last)
  }

  function WriteAll(r: Reg, ms: seq<Mark>): Reg
    decreases |ms|
  {
    if ms == [] then r else WriteAll(Write(r, ms[0]), ms[1..])
  }

  /** A chain order names one fill. */
  ghost predicate OneMarkPerOrder(ms: seq<Mark>) {
    forall m, n :: m in ms && n in ms && m.order == n.order ==> m == n
  }

  ghost predicate SameMembers<T(!new)>(a: seq<T>, b: seq<T>) {
    forall x :: x in a <==> x in b
  }

  ghost predicate IsTop(ms: seq<Mark>, h: Mark) {
    h in ms && forall m :: m in ms ==> m.order <= h.order
  }

  /** The highest mark moves the row and names a buyer. */
  ghost predicate TopDecides(r: Reg, ms: seq<Mark>) {
    exists h :: IsTop(ms, h) && LaterThan(h.order, r.last) && h.buyer.Some?
  }

  /** A mark that could give the row a buyer it does not have. */
  predicate Candidate(r: Reg, m: Mark) {
    m.buyer.Some? && (r.buyer.Some? ==> LaterThan(m.order, r.last))
  }

  /** All that could be written is one buyer, the one already there if there is one. */
  ghost predicate OneBuyer(r: Reg, ms: seq<Mark>) {
    && (forall m :: m in ms && Candidate(r, m) && r.buyer.Some? ==> m.buyer == r.buyer)
    && (forall m, n :: m in ms && n in ms && Candidate(r, m) && Candidate(r, n) && r.buyer.None? ==> m.buyer == n.buyer)
  }

  ghost predicate Decided(r: Reg, ms: seq<Mark>) {
    TopDecides(r, ms) || OneBuyer(r, ms)
  }

  /** Once the row knows a buyer, marks that are not later change nothing. */
  lemma {:induction false} Kept(r: Reg, ms: seq<Mark>)
    requires r.buyer.Some? && forall m :: m in ms ==> !LaterThan(m.order, r.last)
    ensures WriteAll(r, ms) == r
    decreases |ms|
  {
    if ms != [] {
      assert ms[0] in ms;
      Kept(r, ms[1..]);
    }
  }

  /** The buyer of the highest mark wins, wherever it comes in the list. */
  lemma {:induction false} TopWins(r: Reg, ms: seq<Mark>, h: Mark)
    requires OneMarkPerOrder(ms) && IsTop(ms, h) && LaterThan(h.order, r.last) && h.buyer.Some?
    ensures WriteAll(r, ms).buyer == h.buyer
    decreases |ms|
  {
    var m, rest := ms[0], ms[1..];
    assert m in ms && forall n :: n in rest ==> n in ms;
    if m == h {
      Kept(Write(r, m), rest);
    } else {
      assert m.order < h.order;
      assert h in rest;
      TopWins(Write(r, m), rest, h);
    }
  }

  lemma {:induction false} KnownBuyerStays(r: Reg, ms: seq<Mark>)
    requires r.buyer.Some? && OneBuyer(r, ms)
    ensures WriteAll(r, ms).buyer == r.buyer
    decreases |ms|
  {
    if ms != [] {
      assert ms[0] in ms && forall n :: n in ms[1..] ==> n in ms;
      KnownBuyerStays(Write(r, ms[0]), ms[1..]);
    }
  }

  /** With a single buyer on offer the row ends with it, if any mark carries it. */
  lemma {:induction false} OnlyBuyerWins(r: Reg, ms: seq<Mark>)
    requires r.buyer.None? && OneBuyer(r, ms)
    ensures forall m :: m in ms && m.buyer.Some? ==> WriteAll(r, ms).buyer == m.buyer
    ensures (forall m :: m in ms ==> m.buyer.None?) ==> WriteAll(r, ms).buyer.None?
    decreases |ms|
  {
    if ms != [] {
      var m, rest := ms[0], ms[1..];
      assert m in ms && forall n :: n in rest ==> n in ms;
      assert forall n :: n in ms ==> n == m || n in rest;
      if m.buyer.None? {
        OnlyBuyerWins(Write(r, m), rest);
      } else {
        KnownBuyerStays(Write(r, m), rest);
      }
    }
  }

  /** If the outcome is decided, permuting or repeating the marks does not change it. */
  lemma BuyerConverges(r: Reg, a: seq<Mark>, b: seq<Mark>)
    requires OneMarkPerOrder(a) && SameMembers(a, b) && Decided(r, a)
    ensures WriteAll(r, a).buyer == WriteAll(r, b).buyer
  {
    if TopDecides(r, a) {
      var h :| IsTop(a, h) && LaterThan(h.order, r.last) && h.buyer.Some?;
      TopWins(r, a, h);
      TopWins(r, b, h);
    } else if r.buyer.Some? {
      KnownBuyerStays(r, a);
      KnownBuyerStays(r, b);
    } else {
      OnlyBuyerWins(r, a);
      OnlyBuyerWins(r, b);
    }
  }

  // ---------------------------------------------------------------- divergence

  lemma {:induction false} TopExists(ms: seq<Mark>) returns (h: nat)
    requires ms != []
    ensures h < |ms| && IsTop(ms, ms[h])
    decreases |ms|
  {
    h := 0;
    if |ms| > 1 {
      var front := ms[..|ms| - 1];
      h := TopExists(front);
      assert forall m :: m in ms ==> m in front || m == ms[|ms| - 1];
      if ms[h].order < ms[|ms| - 1].order {
        h := |ms| - 1;
      }
    }
  }

  /** The elements of `s` at the given positions. */
  function Pick<T>(s: seq<T>, at: seq<nat>): seq<T>
    requires forall i :: 0 <= i < |at| ==> at[i] < |s|
  {
    seq(|at|, i requires 0 <= i < |at| => s[at[i]])
  }

  ghost predicate Inside(at: seq<nat>, n: nat) {
    forall i :: 0 <= i < |at| ==> at[i] < n
  }

  /** The list led by some of its own elements. */
  function Led<T>(s: seq<T>, at: seq<nat>): seq<T>
    requires forall i :: 0 <= i < |at| ==> at[i] < |s|
  {
    Pick(s, at) + s
  }

  lemma LedHasSameMembers<T(!new)>(s: seq<T>, at: seq<nat>)
    requires forall i :: 0 <= i < |at| ==> at[i] < |s|
    ensures SameMembers(s, Led(s, at))
  {
  }

  lemma LedByOne(r: Reg, ms: seq<Mark>, u: nat)
    requires u < |ms|
    ensures WriteAll(r, Led(ms, [u])) == WriteAll(Write(r, ms[u]), ms)
  {
    assert Led(ms, [u])[0] == ms[u] && Led(ms, [u])[1..] == ms;
  }

  lemma LedByTwo(r: Reg, ms: seq<Mark>, u: nat, v: nat)
    requires u < |ms| && v < |ms|
    ensures WriteAll(r, Led(ms, [u, v])) == WriteAll(Write(Write(r, ms[u]), ms[v]), ms)
  {
    var l := Led(ms, [u, v]);
    assert l[0] == ms[u] && l[1..][0] == ms[v] && l[1..][1..] == ms;
  }

  /** Led by its elements at `at`, the list leaves `buyer`. */
  ghost predicate Leaves(r: Reg, ms: seq<Mark>, at: seq<nat>, buyer: Option<Address>) {
    Inside(at, |ms|) && WriteAll(r, Led(ms, at)).buyer == buyer
  }

  /** A known buyer is overtaken or not, depending on whether a later mark comes before the highest one. */
  lemma KnownDiverges(r: Reg, ms: seq<Mark>, u: nat, h: nat)
    requires u < |ms| && h < |ms| && r.buyer.Some? && OneMarkPerOrder(ms) && IsTop(ms, ms[h]) && ms[h].buyer.None?
    requires Candidate(r, ms[u]) && ms[u].buyer != r.buyer
    ensures Leaves(r, ms, [h], r.buyer) && Leaves(r, ms, [u, h], ms[u].buyer)
  {
    assert ms[u] in ms && ms[u].order < ms[h].order;
    LedByOne(r, ms, h);
    Kept(Write(r, ms[h]), ms);
    LedByTwo(r, ms, u, h);
    Kept(Write(Write(r, ms[u]), ms[h]), ms);
  }

  /** A row without a buyer takes the one that comes first, once its position is past them all. */
  lemma UnknownDiverges(r: Reg, ms: seq<Mark>, u: nat, h: nat)
    requires u < |ms| && h < |ms| && r.buyer.None? && IsTop(ms, ms[h]) && ms[u].buyer.Some?
    requires LaterThan(ms[h].order, r.last) ==> ms[h].buyer.None?
    ensures Leaves(r, ms, if LaterThan(ms[h].order, r.last) then [h, u] else [u], ms[u].buyer)
  {
    assert ms[u] in ms;
    if LaterThan(ms[h].order, r.last) {
      LedByTwo(r, ms, h, u);
      Kept(Write(Write(r, ms[h]), ms[u]), ms);
    } else {
      LedByOne(r, ms, u);
      Kept(Write(r, ms[u]), ms);
    }
  }

  ghost predicate Diverging(r: Reg, ms: seq<Mark>, p: seq<nat>, q: seq<nat>) {
    && Inside(p, |ms|) && Inside(q, |ms|)
    && WriteAll(r, Led(ms, p)).buyer != WriteAll(r, Led(ms, q)).buyer
  }

  lemma Overtaker(r: Reg, ms: seq<Mark>) returns (u: nat, h: nat)
    requires !Decided(r, ms) && r.buyer.Some?
    ensures u < |ms| && h < |ms| && IsTop(ms, ms[h]) && ms[h].buyer.None?
    ensures Candidate(r, ms[u]) && ms[u].buyer != r.buyer
  {
    var m :| m in ms && Candidate(r, m) && m.buyer != r.buyer;
    u := Position(m, ms);
    h := TopExists(ms);
  }

  lemma Rivals(r: Reg, ms: seq<Mark>) returns (u: nat, v: nat, h: nat)
    requires !Decided(r, ms) && r.buyer.None?
    ensures u < |ms| && v < |ms| && h < |ms| && IsTop(ms, ms[h])
    ensures ms[u].buyer.Some? && ms[v].buyer.Some? && ms[u].buyer != ms[v].buyer
    ensures LaterThan(ms[h].order, r.last) ==> ms[h].buyer.None?
  {
    var m, n :| m in ms && n in ms && Candidate(r, m) && Candidate(r, n) && m.buyer != n.buyer;
    u := Position(m, ms);
    v := Position(n, ms);
    h := TopExists(ms);
  }

  lemma LeavesTwo(r: Reg, ms: seq<Mark>, p: seq<nat>, x: Option<Address>, q: seq<nat>, y: Option<Address>)
    requires Leaves(r, ms, p, x) && Leaves(r, ms, q, y) && x != y
    ensures Diverging(r, ms, p, q)
  {
  }

  /** Undecided marks diverge: led by some of themselves in two ways, they leave different buyers. */
  lemma UndecidedDiverges(r: Reg, ms: seq<Mark>) returns (p: seq<nat>, q: seq<nat>)
    requires OneMarkPerOrder(ms) && !Decided(r, ms)
    ensures Diverging(r, ms, p, q)
  {
    if r.buyer.Some? {
      var u, h := Overtaker(r, ms);
      KnownDiverges(r, ms, u, h);
      p, q := [h], [u, h];
      LeavesTwo(r, ms, p, r.buyer, q, ms[u].buyer);
    } else {
      var u, v, h := Rivals(r, ms);
      UnknownDiverges(r, ms, u, h);
      UnknownDiverges(r, ms, v, h);
      p := if LaterThan(ms[h].order, r.last) then [h, u] else [u];
      q := if LaterThan(ms[h].order, r.last) then [h, v] else [v];
      LeavesTwo(r, ms, p, ms[u].buyer, q, ms[v].buyer);
    }
  }

  ghost predicate Agree(r: Reg, a: seq<Mark>, b: seq<Mark>) {
    SameMembers(a, b) ==> WriteAll(r, a).buyer == WriteAll(r, b).buyer
  }

  /**
   Marks, some with a buyer and some without, leave the same buyer in every order and with every
   repetition exactly when the highest one moves the row and names a buyer, or they offer one buyer only.
   */
  lemma ConvergesIffDecided(r: Reg, a: seq<Mark>)
    requires OneMarkPerOrder(a)
    ensures (forall b: seq<Mark> :: Agree(r, a, b)) <==> Decided(r, a)
  {
    if Decided(r, a) {
      forall b: seq<Mark> ensures Agree(r, a, b) {
        if SameMembers(a, b) {
          BuyerConverges(r, a, b);
        }
      }
    } else {
      var p, q := UndecidedDiverges(r, a);
      LedHasSameMembers(a, p);
      LedHasSameMembers(a, q);
      assert !Agree(r, a, Led(a, p)) || !Agree(r, a, Led(a, q));
    }
  }

  /** The row has no history, or knows its buyer: no chain order was folded in without one. */
  predicate Settled(r: Reg) {
    r.last.None? || r.buyer.Some?
  }

  ghost predicate AllCarry(ms: seq<Mark>) {
    forall m :: m in ms ==> m.buyer.Some?
  }

  lemma SettledDecides(r: Reg, ms: seq<Mark>)
    requires Settled(r) && AllCarry(ms)
    ensures Decided(r, ms)
  {
    if ms != [] {
      var h := TopExists(ms);
      assert ms[h] in ms;
    }
  }

  lemma UnsettledUndecided(r: Reg, m: Mark, n: Mark)
    requires !Settled(r) && m.buyer.Some? && n.buyer.Some? && m.buyer != n.buyer
    requires !LaterThan(m.order, r.last) && !LaterThan(n.order, r.last)
    ensures !Decided(r, [m, n])
  {
    assert m in [m, n] && n in [m, n];
  }

  /** Marks that all carry a buyer converge, whatever they are, exactly from a settled row. */
  lemma BuyerConvergesIffSettled(r: Reg)
    ensures (forall a: seq<Mark> | AllCarry(a) && OneMarkPerOrder(a) :: Decided(r, a)) <==> Settled(r)
  {
    if Settled(r) {
      forall a: seq<Mark> | AllCarry(a) && OneMarkPerOrder(a) ensures Decided(r, a) {
        SettledDecides(r, a);
      }
    } else {
      var m, n := Mark(r.last.value - 1, Some("alice")), Mark(r.last.value - 2, Some("bob"));
      assert "alice"[0] != "bob"[0];
      UnsettledUndecided(r, m, n);
      assert AllCarry([m, n]) && OneMarkPerOrder([m, n]);
    }
  }

  // ---------------------------------------------------------------- the register in the tables

  function RegOf(d: Deal): Reg {
    Reg(d.buyerNote, d.lastChainOrder)
  }

  function RegAt(t: Tables, tc: Address): Reg {
    if tc in t.deals then RegOf(t.deals[tc]) else Reg(None, None)
  }

  /** The mark of an operation on the deal `tc`: a delivered fill whose legs are placed, or a repaired one. */
  function MarkOf(orders: Orders, op: Op, tc: Address): Option<Mark> {
    if op.SweepIds? || op.event.src.None? || !op.event.payload.OrderFilled? then None
    else
      var f := op.event.payload.fill;
      if f.sellerTc != Some(tc) || (op.Deliver? && !(Legs(op.event.src.value, f) <= orders.Keys)) then None
      else Some(Mark(op.order, f.buyerNote))
  }

  function AsMarks(m: Option<Mark>): seq<Mark> {
    if m.Some? then [m.value] else []
  }

  /** The marks a run leaves on the deal, in order. */
  function Marks(orders: Orders, ops: seq<Op>, tc: Address): seq<Mark>
    decreases |ops|
  {
    if ops == [] then []
    else AsMarks(MarkOf(orders, ops[0], tc)) + Marks(OrdersAfter(orders, ops[0]), ops[1..], tc)
  }

  /** A fresh ask that ends the funding cycle of the deal. */
  predicate EndsCycle(t: Tables, op: Op, tc: Address) {
    && PlacedKey(op).Some? && !PlacedRow(op).isBuy && PlacedRow(op).tokenContract == Some(tc)
    && tc in t.deals && t.deals[tc].deposit.Some? && LaterThan(op.order, t.deals[tc].lastChainOrder)
  }

  ghost predicate Undisturbed(t: Tables, ops: seq<Op>, tc: Address)
    decreases |ops|
  {
    ops == [] || (!EndsCycle(t, ops[0], tc) && Undisturbed(Act(t, ops[0]), ops[1..], tc))
  }

  predicate Unfunded(t: Tables, tc: Address) {
    tc in t.deals ==> t.deals[tc].deposit.None?
  }

  lemma LinkWritesRegister(
    deals: map<Address, Deal>, seller: Option<Address>, book: Address, f: Fill, order: ChainOrder, tc: Address)
    ensures var linked := LinkedDeals(deals, seller, book, f, order);
            var r := if tc in deals then RegOf(deals[tc]) else Reg(None, None);
            if f.sellerTc == Some(tc) then
              && tc in linked && RegOf(linked[tc]) == Write(r, Mark(order, f.buyerNote))
              && linked[tc].deposit == if tc in deals then deals[tc].deposit else None
            else (tc in linked <==> tc in deals) && (tc in deals ==> linked[tc] == deals[tc])
  {
  }

  lemma FillWritesRegister(t: Tables, op: Op, tc: Address)
    requires !op.SweepIds? && op.event.src.Some? && op.event.payload.OrderFilled?
    ensures RegAt(Act(t, op), tc) == WriteAll(RegAt(t, tc), AsMarks(MarkOf(t.orders, op, tc)))
    ensures Unfunded(t, tc) ==> Unfunded(Act(t, op), tc)
  {
    var book, f, at := op.event.src.value, op.event.payload.fill, Stamp(op.order, op.event.time);
    LinkWritesRegister(t.deals, SellerNote(t.orders, book, f), book, f, op.order, tc);
    assert BothLegs(t, book, f) <==> Legs(book, f) <= t.orders.Keys;
    var m := Mark(op.order, f.buyerNote);
    assert [m][1..] == [];
    assert WriteAll(RegAt(t, tc), [m]) == Write(RegAt(t, tc), m);
    if op.Deliver? {
      FilledParts(SeedMarket(t, book, op.event.time), book, f, at);
    } else {
      FilledParts(t, book, f, at);
    }
  }

  /** Every operation writes its mark, if it has one, and otherwise only the end of a cycle touches the register. */
  lemma OpWritesRegister(t: Tables, op: Op, tc: Address)
    requires !EndsCycle(t, op, tc)
    ensures RegAt(Act(t, op), tc) == WriteAll(RegAt(t, tc), AsMarks(MarkOf(t.orders, op, tc)))
    ensures Unfunded(t, tc) ==> Unfunded(Act(t, op), tc)
  {
    if !op.SweepIds? {
      if op.event.src.Some? && op.event.payload.OrderFilled? {
        FillWritesRegister(t, op, tc);
      } else {
        NonFillParts(t, op);
      }
    }
  }

  lemma {:induction false} WriteAllConcat(r: Reg, a: seq<Mark>, b: seq<Mark>)
    ensures WriteAll(r, a + b) == WriteAll(WriteAll(r, a), b)
    decreases |a|
  {
    if a == [] {
      assert a + b == b;
    } else {
      assert (a + b)[1..] == a[1..] + b;
      WriteAllConcat(Write(r, a[0]), a[1..], b);
    }
  }

  /** Over every run that ends no funding cycle of the deal, its row is the register written with the run's marks. */
  lemma {:induction false} RunWritesRegister(t: Tables, ops: seq<Op>, tc: Address)
    requires Undisturbed(t, ops, tc)
    ensures RegAt(Play(t, ops), tc) == WriteAll(RegAt(t, tc), Marks(t.orders, ops, tc))
    decreases |ops|
  {
    if ops != [] {
      var t' := Act(t, ops[0]);
      OpWritesRegister(t, ops[0], tc);
      OrdersFollowLens(t, ops[0]);
      RunWritesRegister(t', ops[1..], tc);
      WriteAllConcat(RegAt(t, tc), AsMarks(MarkOf(t.orders, ops[0], tc)), Marks(t'.orders, ops[1..], tc));
    }
  }

  /** A deal without a deposit has no cycle to end: no modelled operation funds one. */
  lemma {:induction false} UnfundedIsUndisturbed(t: Tables, ops: seq<Op>, tc: Address)
    requires Unfunded(t, tc)
    ensures Undisturbed(t, ops, tc)
    decreases |ops|
  {
    if ops != [] {
      OpWritesRegister(t, ops[0], tc);
      UnfundedIsUndisturbed(Act(t, ops[0]), ops[1..], tc);
    }
  }

  /**
   Any two runs, whatever else they do between the fills, that put the same marks on a deal in any order
   and with repetitions leave the same buyer, if the marks decide it. If the highest mark moves the row
   and names a buyer, it is that one.
   */
  lemma DealBuyerConverges(t: Tables, a: seq<Op>, b: seq<Op>, tc: Address)
    requires Undisturbed(t, a, tc) && Undisturbed(t, b, tc)
    requires SameMembers(Marks(t.orders, a, tc), Marks(t.orders, b, tc)) && OneMarkPerOrder(Marks(t.orders, a, tc))
    requires Decided(RegAt(t, tc), Marks(t.orders, a, tc))
    ensures RegAt(Play(t, a), tc).buyer == RegAt(Play(t, b), tc).buyer
    ensures forall h :: IsTop(Marks(t.orders, a, tc), h) && LaterThan(h.order, RegAt(t, tc).last) && h.buyer.Some? ==>
              RegAt(Play(t, a), tc).buyer == h.buyer
  {
    var ms := Marks(t.orders, a, tc);
    RunWritesRegister(t, a, tc);
    RunWritesRegister(t, b, tc);
    BuyerConverges(RegAt(t, tc), ms, Marks(t.orders, b, tc));
    forall h | IsTop(ms, h) && LaterThan(h.order, RegAt(t, tc).last) && h.buyer.Some?
      ensures RegAt(Play(t, a), tc).buyer == h.buyer
    {
      TopWins(RegAt(t, tc), ms, h);
    }
  }

  // ---------------------------------------------------------------- exactly when, in the tables

  /** Delivered fills on the deal whose legs are all placed. */
  predicate FillsOf(orders: Orders, ops: seq<Op>, tc: Address) {
    forall i :: 0 <= i < |ops| ==> ops[i].Deliver? && MarkOf(orders, ops[i], tc).Some?
  }

  function MarkEach(orders: Orders, ops: seq<Op>, tc: Address): seq<Mark>
    requires FillsOf(orders, ops, tc)
  {
    seq(|ops|, i requires 0 <= i < |ops| => MarkOf(orders, ops[i], tc).value)
  }

  lemma FillKeepsKeys(t: Tables, op: Op, tc: Address)
    requires op.Deliver? && MarkOf(t.orders, op, tc).Some?
    ensures Act(t, op).orders == OrdersAfter(t.orders, op) && Act(t, op).orders.Keys == t.orders.Keys
  {
    OrdersFollowLens(t, op);
  }

  lemma SameKeysSameMarks(orders: Orders, orders': Orders, ops: seq<Op>, tc: Address)
    requires orders'.Keys == orders.Keys
    ensures forall i :: 0 <= i < |ops| ==> MarkOf(orders', ops[i], tc) == MarkOf(orders, ops[i], tc)
  {
  }

  /** Fills place no rows, so each leaves its mark wherever it comes in the run; and they end no cycle. */
  lemma {:induction false} FillsLeaveMarks(t: Tables, ops: seq<Op>, tc: Address)
    requires FillsOf(t.orders, ops, tc)
    ensures Marks(t.orders, ops, tc) == MarkEach(t.orders, ops, tc) && Undisturbed(t, ops, tc)
    decreases |ops|
  {
    if ops != [] {
      var t' := Act(t, ops[0]);
      FillKeepsKeys(t, ops[0], tc);
      SameKeysSameMarks(t.orders, t'.orders, ops, tc);
      FillsLeaveMarks(t', ops[1..], tc);
      assert MarkEach(t.orders, ops, tc) == [MarkOf(t.orders, ops[0], tc).value] + MarkEach(t'.orders, ops[1..], tc);
    }
  }

  ghost predicate RunsAgree(t: Tables, a: seq<Op>, b: seq<Op>, tc: Address) {
    SameMembers(a, b) ==> RegAt(Play(t, a), tc).buyer == RegAt(Play(t, b), tc).buyer
  }

  lemma SameOpsSameMarks(orders: Orders, a: seq<Op>, b: seq<Op>, tc: Address)
    requires FillsOf(orders, a, tc) && SameMembers(a, b)
    ensures FillsOf(orders, b, tc) && SameMembers(MarkEach(orders, a, tc), MarkEach(orders, b, tc))
  {
    forall i | 0 <= i < |b| ensures b[i].Deliver? && MarkOf(orders, b[i], tc).Some? {
      assert b[i] in b;
      var j := Position(b[i], a);
    }
    MarksFollow(orders, a, b, tc);
    MarksFollow(orders, b, a, tc);
  }

  lemma MarksFollow(orders: Orders, a: seq<Op>, b: seq<Op>, tc: Address)
    requires FillsOf(orders, a, tc) && FillsOf(orders, b, tc) && forall op :: op in a ==> op in b
    ensures forall m :: m in MarkEach(orders, a, tc) ==> m in MarkEach(orders, b, tc)
  {
    forall m | m in MarkEach(orders, a, tc) ensures m in MarkEach(orders, b, tc) {
      var i := Position(m, MarkEach(orders, a, tc));
      assert a[i] in a;
      var j := Position(a[i], b);
      assert MarkEach(orders, b, tc)[j] == m;
    }
  }

  /** Leading a list of fills leads its marks. */
  lemma LedFills(t: Tables, ops: seq<Op>, at: seq<nat>, tc: Address)
    requires FillsOf(t.orders, ops, tc) && Inside(at, |ops|)
    ensures RegAt(Play(t, Led(ops, at)), tc) == WriteAll(RegAt(t, tc), Led(MarkEach(t.orders, ops, tc), at))
    ensures SameMembers(ops, Led(ops, at))
  {
    var led := Led(ops, at);
    LedHasSameMembers(ops, at);
    SameOpsSameMarks(t.orders, ops, led, tc);
    FillsLeaveMarks(t, led, tc);
    RunWritesRegister(t, led, tc);
    MarksOfLed(t.orders, ops, at, tc);
  }

  lemma MarksOfLed(orders: Orders, ops: seq<Op>, at: seq<nat>, tc: Address)
    requires FillsOf(orders, ops, tc) && Inside(at, |ops|) && FillsOf(orders, Led(ops, at), tc)
    ensures MarkEach(orders, Led(ops, at), tc) == Led(MarkEach(orders, ops, tc), at)
  {
    var ms := MarkEach(orders, ops, tc);
    var led, of := Led(ms, at), MarkEach(orders, Led(ops, at), tc);
    assert |of| == |led| == |at| + |ops|;
    forall i | 0 <= i < |of| ensures of[i] == led[i] {
      if i < |at| {
        assert Led(ops, at)[i] == ops[at[i]] && led[i] == ms[at[i]];
      } else {
        assert Led(ops, at)[i] == ops[i - |at|] && led[i] == ms[i - |at|];
      }
    }
  }

  /**
   For every table and every list of fills on a deal with their legs placed, one fill per chain order: all
   reorderings and repetitions of them leave the same buyer if and only if their marks decide it.
   */
  lemma FillsConvergeIffDecided(t: Tables, a: seq<Op>, tc: Address)
    requires FillsOf(t.orders, a, tc) && OneMarkPerOrder(MarkEach(t.orders, a, tc))
    ensures (forall b: seq<Op> :: RunsAgree(t, a, b, tc)) <==> Decided(RegAt(t, tc), MarkEach(t.orders, a, tc))
  {
    var ms := MarkEach(t.orders, a, tc);
    FillsLeaveMarks(t, a, tc);
    if Decided(RegAt(t, tc), ms) {
      forall b: seq<Op> ensures RunsAgree(t, a, b, tc) {
        if SameMembers(a, b) {
          SameOpsSameMarks(t.orders, a, b, tc);
          FillsLeaveMarks(t, b, tc);
          DealBuyerConverges(t, a, b, tc);
        }
      }
    } else {
      var p, q := UndecidedDiverges(RegAt(t, tc), ms);
      LedFills(t, a, p, tc);
      LedFills(t, a, q, tc);
      assert !RunsAgree(t, a, Led(a, p), tc) || !RunsAgree(t, a, Led(a, q), tc);
    }
  }

  /** From a settled row, fills that all carry a buyer leave the same one in every order. */
  lemma SettledFillsConverge(t: Tables, a: seq<Op>, b: seq<Op>, tc: Address)
    requires FillsOf(t.orders, a, tc) && OneMarkPerOrder(MarkEach(t.orders, a, tc))
    requires AllCarry(MarkEach(t.orders, a, tc)) && Settled(RegAt(t, tc))
    ensures RunsAgree(t, a, b, tc)
  {
    SettledDecides(RegAt(t, tc), MarkEach(t.orders, a, tc));
    FillsConvergeIffDecided(t, a, tc);
  }

  /** A fill without a buyer is enough to leave a new deal unsettled. */
  lemma BuyerlessFillUnsettles(t: Tables, op: Op, tc: Address)
    requires tc !in t.deals && MarkOf(t.orders, op, tc).Some? && MarkOf(t.orders, op, tc).value.buyer.None?
    ensures !Settled(RegAt(Act(t, op), tc))
  {
    OpWritesRegister(t, op, tc);
    var m := MarkOf(t.orders, op, tc).value;
    assert [m][1..] == [];
  }

  /** So is a fresh ask on a funded deal: the buyer is cleared and the position moves on. */
  lemma AskUnsettlesFundedDeal(t: Tables, op: Op, tc: Address)
    requires EndsCycle(t, op, tc)
    ensures !Settled(RegAt(Act(t, op), tc))
  {
    NonFillParts(t, op);
  }

  /** A match of ask 1 and bid 2 on one book. */
  function Match(tc: Address, buyer: Option<Address>, order: ChainOrder): Op {
    Deliver(Event(Some("book"), None, OrderFilled(Fill(1, 2, 5, 10, Some(tc), buyer))), order)
  }

  lemma MatchMark(orders: Orders, tc: Address, buyer: Option<Address>, order: ChainOrder)
    requires OrderKey("book", 1) in orders && OrderKey("book", 2) in orders
    ensures MarkOf(orders, Match(tc, buyer, order), tc) == Some(Mark(order, buyer))
  {
  }

  /** From an unsettled deal, two older matches with different buyers leave the buyer of whichever is replayed first. */
  lemma UnsettledMatchesDiverge(t: Tables, tc: Address)
    requires OrderKey("book", 1) in t.orders && OrderKey("book", 2) in t.orders && !Settled(RegAt(t, tc))
    ensures var last := RegAt(t, tc).last.value;
            var ops := [Match(tc, Some("alice"), last - 1), Match(tc, Some("bob"), last - 2)];
            !forall b: seq<Op> :: RunsAgree(t, ops, b, tc)
  {
    var last := RegAt(t, tc).last.value;
    var p, q := Match(tc, Some("alice"), last - 1), Match(tc, Some("bob"), last - 2);
    var m, n := Mark(last - 1, Some("alice")), Mark(last - 2, Some("bob"));
    MatchMark(t.orders, tc, Some("alice"), last - 1);
    MatchMark(t.orders, tc, Some("bob"), last - 2);
    assert "alice"[0] != "bob"[0];
    assert MarkEach(t.orders, [p, q], tc) == [m, n];
    UnsettledUndecided(RegAt(t, tc), m, n);
    FillsConvergeIffDecided(t, [p, q], tc);
  }

  /** Such a deal is reached from empty tables: place ask 1 and bid 2, and match them without naming the buyer. */
  lemma UnsettledIsReachable() returns (ops: seq<Op>, tc: Address)
    ensures var t := Play(EMPTY, ops);
            && OrderKey("book", 1) in t.orders && OrderKey("book", 2) in t.orders
            && !Settled(RegAt(t, tc))
            && exists a: seq<Op>, b: seq<Op> :: !RunsAgree(t, a, b, tc)
  {
    tc := "deal";
    var ask := Deliver(Event(Some("book"), None, OrderPlaced(1, false, 10, 5, "seller", tc, 0)), 1);
    var bid := Deliver(Event(Some("book"), None, SubscriptionPlaced(2, 10, 5, "buyer")), 2);
    var t1 := Act(EMPTY, ask);
    var t2 := Act(t1, bid);
    var t3 := Act(t2, Match(tc, None, 3));
    ops := [ask, bid, Match(tc, None, 3)];
    OrdersFollowLens(EMPTY, ask);
    OrdersFollowLens(t1, bid);
    OrdersFollowLens(t2, Match(tc, None, 3));
    NonFillParts(EMPTY, ask);
    NonFillParts(t1, bid);
    MatchMark(t2.orders, tc, None, 3);
    BuyerlessFillUnsettles(t2, Match(tc, None, 3), tc);
    assert Play(EMPTY, ops) == t3 by {
      var fill := Match(tc, None, 3);
      assert ops[1..] == [bid, fill] && [bid, fill][1..] == [fill] && [fill][1..] == [];
      assert Play(t3, []) == t3 && Play(t2, [fill]) == t3 && Play(t1, [bid, fill]) == t3;
    }
    UnsettledMatchesDiverge(t3, tc);
  }

  // ---------------------------------------------------------------- the tape

  predicate SameMatch(a: Trade, b: Trade) {
    && a.book == b.book && a.price == b.price && a.qty == b.qty && a.isBuyerMaker == b.isBuyerMaker
    && (a.chainTime.Some? ==> b.chainTime == a.chainTime)
  }

  lemma TapeStep(t: Tables, op: Op, id: ChainOrder)
    requires id in t.trades
    ensures id in Act(t, op).trades && SameMatch(t.trades[id], Act(t, op).trades[id])
  {
    if !op.SweepIds? {
      var e, at := op.event, Stamp(op.order, op.event.time);
      if e.src.Some? && e.payload.OrderFilled? {
        if op.Orphan? {
          FilledParts(t, e.src.value, e.payload.fill, at);
        } else {
          FilledParts(SeedMarket(t, e.src.value, e.time), e.src.value, e.payload.fill, at);
        }
      } else {
        NonFillParts(t, op);
      }
    }
  }

  /**
   A tape row's book, price, quantity and side never change after the first write; a known time never
   changes either.
   */
  lemma {:induction false} TapeIsImmutable(t: Tables, ops: seq<Op>, id: ChainOrder)
    requires id in t.trades
    ensures id in Play(t, ops).trades && SameMatch(t.trades[id], Play(t, ops).trades[id])
    decreases |ops|
  {
    if ops != [] {
      TapeStep(t, ops[0], id);
      TapeIsImmutable(Act(t, ops[0]), ops[1..], id);
    }
  }

  // ---------------------------------------------------------------- the deal row itself

  /** A known book and seller stay, and the position never goes back. */
  predicate SameDeal(a: Deal, b: Deal) {
    && (a.book.Some? ==> b.book == a.book)
    && (a.sellerNote.Some? ==> b.sellerNote == a.sellerNote)
    && (a.lastChainOrder.Some? ==> !LaterThan(a.lastChainOrder.value, b.lastChainOrder))
  }

  lemma LinkKeepsDeal(
    deals: map<Address, Deal>, seller: Option<Address>, book: Address, f: Fill, order: ChainOrder, tc: Address)
    requires tc in deals
    ensures tc in LinkedDeals(deals, seller, book, f, order)
    ensures SameDeal(deals[tc], LinkedDeals(deals, seller, book, f, order)[tc])
  {
  }

  lemma DealStep(t: Tables, op: Op, tc: Address)
    requires tc in t.deals
    ensures tc in Act(t, op).deals && SameDeal(t.deals[tc], Act(t, op).deals[tc])
  {
    if !op.SweepIds? {
      var e, at := op.event, Stamp(op.order, op.event.time);
      if e.src.Some? && e.payload.OrderFilled? {
        var book, f := e.src.value, e.payload.fill;
        FilledParts(t, book, f, at);
        FilledParts(SeedMarket(t, book, e.time), book, f, at);
        LinkKeepsDeal(t.deals, SellerNote(t.orders, book, f), book, f, op.order, tc);
      } else {
        NonFillParts(t, op);
      }
    }
  }

  /** In every continuation a deal keeps its first book and seller, and its position only advances. */
  lemma {:induction false} DealKeepsIdentity(t: Tables, ops: seq<Op>, tc: Address)
    requires tc in t.deals
    ensures tc in Play(t, ops).deals && SameDeal(t.deals[tc], Play(t, ops).deals[tc])
    decreases |ops|
  {
    if ops != [] {
      DealStep(t, ops[0], tc);
      DealKeepsIdentity(Act(t, ops[0]), ops[1..], tc);
    }
  }
}
