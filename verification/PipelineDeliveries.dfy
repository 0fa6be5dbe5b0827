/**
 Which rows reach the inference state machine, and what a processed mark means: the operations of a deployed
 run are, in commit order, one delivery for each row attempted without error, repairs and sweeps.
 */
module PipelineDeliveries {
  import opened Prelude
  import opened PipelineModel
  import opened PipelineSteps
  import opened PipelineExactlyOnce
  import opened PipelineInference
  import opened InferenceRuns
  import opened InferenceColumns
  import I = InferenceModel

  type State = Sys<I.Tables, I.Event>
  type Move = Step<I.Tables, I.Event>

  // ---------------------------------------------------------------- deliveries of a run

  function Kept(op: Op): seq<Op> {
    if op.Deliver? then [op] else []
  }

  function DeliveryOf(row: Row): seq<Op> {
    if Legible(row) then [Delivery(row)] else []
  }

  /** The deliveries among the operations. */
  function Deliveries(ops: seq<Op>): seq<Op>
    decreases |ops|
  {
    if ops == [] then [] else Kept(ops[0]) + Deliveries(ops[1..])
  }

  /** The deliveries of the rows that can be read, in order. */
  function DeliveriesOf(rows: seq<Row>): seq<Op>
    decreases |rows|
  {
    if rows == [] then []
    else DeliveriesOf(rows[..|rows| - 1]) + DeliveryOf(rows[|rows| - 1])
  }

  lemma Regroup(a: seq<Op>, b: seq<Op>, c: seq<Op>)
    ensures a + (b + c) == (a + b) + c
  {
  }

  lemma {:induction false} DeliveriesConcat(a: seq<Op>, b: seq<Op>)
    ensures Deliveries(a + b) == Deliveries(a) + Deliveries(b)
    decreases |a|
  {
    if a == [] {
      assert a + b == b;
    } else {
      var all := a + b;
      assert all[0] == a[0] && all[1..] == a[1..] + b;
      DeliveriesConcat(a[1..], b);
      Regroup(Kept(a[0]), Deliveries(a[1..]), Deliveries(b));
    }
  }

  lemma {:induction false} DeliveriesOfConcat(a: seq<Row>, b: seq<Row>)
    ensures DeliveriesOf(a + b) == DeliveriesOf(a) + DeliveriesOf(b)
    decreases |b|
  {
    if b == [] {
      assert a + b == a;
    } else {
      var all, n := a + b, |b| - 1;
      assert all[..|all| - 1] == a + b[..n] && all[|all| - 1] == b[n];
      DeliveriesOfConcat(a, b[..n]);
      Regroup(DeliveriesOf(a), DeliveriesOf(b[..n]), DeliveryOf(b[n]));
    }
  }

  lemma AttemptDelivers(cutoff: nat, cx: Context, t: Book, row: Row)
    ensures Deliveries(AttemptOps(cutoff, cx, t, row)) == DeliveryOf(row)
  {
    var ops := AttemptOps(cutoff, cx, t, row);
    if ops != [] {
      assert Deliveries(ops[1..]) == [] by {
        if ops[1..] != [] {
          assert ops[1..][1..] == [];
        }
      }
    }
  }

  lemma {:induction false} DrainDelivers(cutoff: nat, cx: Context, t: Book, rows: seq<Row>)
    ensures Deliveries(DrainOps(cutoff, cx, t, rows)) == DeliveriesOf(rows)
    decreases |rows|
  {
    if rows != [] {
      var front, row := rows[..|rows| - 1], rows[|rows| - 1];
      var before := DrainOps(cutoff, cx, t, front);
      DrainDelivers(cutoff, cx, t, front);
      AttemptDelivers(cutoff, cx, Play(t, before), row);
      DeliveriesConcat(before, AttemptOps(cutoff, cx, Play(t, before), row));
    }
  }

  lemma StepDelivers(cutoff: nat, s: State, step: Move)
    requires Enabled(s, step) && Deployed(cutoff, step)
    ensures Deliveries(StepOps(cutoff, s, step)) == DeliveriesOf(Attempted([step]))
  {
    RunOne(s, step);
    if Commits(step) {
      DrainDelivers(cutoff, step.cx, s.db.model, step.rows);
    } else {
      var ops := StepOps(cutoff, s, step);
      assert ops != [] ==> ops[1..] == [] && Deliveries(ops[1..]) == [];
    }
  }

  /**
   The deliveries of a deployed run are, in commit order, exactly those of the rows of its committed batches
   that can be read.
   */
  lemma {:induction false} RunDeliversAttempted(cutoff: nat, s: State, steps: seq<Move>)
    requires Runs(s, steps) && AllDeployed(cutoff, steps)
    ensures Deliveries(RunOps(cutoff, s, steps)) == DeliveriesOf(Attempted(steps))
    decreases |steps|
  {
    if steps != [] {
      var s', rest := Next(s, steps[0]), steps[1..];
      StepDelivers(cutoff, s, steps[0]);
      RunDeliversAttempted(cutoff, s', rest);
      DeliveriesConcat(StepOps(cutoff, s, steps[0]), RunOps(cutoff, s', rest));
      AttemptedConcat([steps[0]], rest);
      assert [steps[0]] + rest == steps;
      DeliveriesOfConcat(Attempted([steps[0]]), Attempted(rest));
    }
  }

  lemma {:induction false} DeliveryIsAnOp(ops: seq<Op>, op: Op)
    requires op in Deliveries(ops)
    ensures op in ops
    decreases |ops|
  {
    if op !in Deliveries(ops[1..]) {
      assert op == ops[0];
    } else {
      DeliveryIsAnOp(ops[1..], op);
    }
  }

  lemma {:induction false} LegibleIsDelivered(rows: seq<Row>, i: nat)
    requires i < |rows| && Legible(rows[i])
    ensures Delivery(rows[i]) in DeliveriesOf(rows)
    decreases |rows|
  {
    if i < |rows| - 1 {
      LegibleIsDelivered(rows[..|rows| - 1], i);
    }
  }

  // ---------------------------------------------------------------- repairs of a run

  /** Every repair comes right after the delivery of the same event. */
  ghost predicate RepairsFollow(ops: seq<Op>) {
    forall i :: 0 <= i < |ops| && ops[i].Orphan? ==> i > 0 && ops[i - 1] == Deliver(ops[i].event, ops[i].order)
  }

  /** The repaired row was overdue by the clock of its batch. */
  ghost predicate RepairIsDue(cutoff: nat, cx: Context, rows: seq<Row>, op: Op)
    requires op.Orphan?
  {
    exists j :: 0 <= j < |rows| && Overdue(cutoff, cx, rows[j])
                && rows[j].event == Some(op.event) && rows[j].chainOrder == op.order
  }

  ghost predicate RepairsAreDue(cutoff: nat, cx: Context, rows: seq<Row>, ops: seq<Op>) {
    forall i :: 0 <= i < |ops| && ops[i].Orphan? ==> RepairIsDue(cutoff, cx, rows, ops[i])
  }

  lemma FollowConcat(a: seq<Op>, b: seq<Op>)
    requires RepairsFollow(a) && RepairsFollow(b)
    ensures RepairsFollow(a + b)
  {
    forall i | 0 <= i < |a + b| && (a + b)[i].Orphan?
      ensures i > 0 && (a + b)[i - 1] == Deliver((a + b)[i].event, (a + b)[i].order)
    {
      if i >= |a| {
        assert b[i - |a|] == (a + b)[i];
      }
    }
  }

  lemma AttemptRepairs(cutoff: nat, cx: Context, t: Book, rows: seq<Row>)
    requires rows != []
    ensures var ops := AttemptOps(cutoff, cx, t, rows[|rows| - 1]);
            RepairsFollow(ops) && RepairsAreDue(cutoff, cx, rows, ops)
  {
  }

  lemma {:induction false} DrainRepairs(cutoff: nat, cx: Context, t: Book, rows: seq<Row>)
    ensures var ops := DrainOps(cutoff, cx, t, rows); RepairsFollow(ops) && RepairsAreDue(cutoff, cx, rows, ops)
    decreases |rows|
  {
    if rows != [] {
      var front := rows[..|rows| - 1];
      var before := DrainOps(cutoff, cx, t, front);
      DrainRepairs(cutoff, cx, t, front);
      AttemptRepairs(cutoff, cx, Play(t, before), rows);
      DueInMore(cutoff, cx, front, rows[|rows| - 1], before);
      assert rows == front + [rows[|rows| - 1]];
      RepairsConcat(cutoff, cx, rows, before, AttemptOps(cutoff, cx, Play(t, before), rows[|rows| - 1]));
    }
  }

  lemma RepairsConcat(cutoff: nat, cx: Context, rows: seq<Row>, a: seq<Op>, b: seq<Op>)
    requires RepairsFollow(a) && RepairsFollow(b)
    requires RepairsAreDue(cutoff, cx, rows, a) && RepairsAreDue(cutoff, cx, rows, b)
    ensures RepairsFollow(a + b) && RepairsAreDue(cutoff, cx, rows, a + b)
  {
    FollowConcat(a, b);
  }

  lemma DueInMore(cutoff: nat, cx: Context, rows: seq<Row>, row: Row, ops: seq<Op>)
    requires RepairsAreDue(cutoff, cx, rows, ops)
    ensures RepairsAreDue(cutoff, cx, rows + [row], ops)
  {
    forall i | 0 <= i < |ops| && ops[i].Orphan? ensures RepairIsDue(cutoff, cx, rows + [row], ops[i]) {
      assert RepairIsDue(cutoff, cx, rows, ops[i]);
      var j :| 0 <= j < |rows| && Overdue(cutoff, cx, rows[j])
               && rows[j].event == Some(ops[i].event) && rows[j].chainOrder == ops[i].order;
      assert (rows + [row])[j] == rows[j];
    }
  }

  /** Some batch of the run found the repaired row overdue while capture was at head. */
  ghost predicate RepairedBySome(cutoff: nat, steps: seq<Move>, op: Op)
    requires op.Orphan?
  {
    exists n :: 0 <= n < |steps| && Commits(steps[n]) && RepairIsDue(cutoff, steps[n].cx, steps[n].rows, op)
  }

  ghost predicate AllRepaired(cutoff: nat, steps: seq<Move>, ops: seq<Op>) {
    forall i :: 0 <= i < |ops| && ops[i].Orphan? ==> RepairedBySome(cutoff, steps, ops[i])
  }

  /** A repair comes right after its own delivery, and only for a row some batch of the run found overdue. */
  lemma {:induction false} RunRepairsAreDue(cutoff: nat, s: State, steps: seq<Move>)
    requires Runs(s, steps) && AllDeployed(cutoff, steps)
    ensures var ops := RunOps(cutoff, s, steps); RepairsFollow(ops) && AllRepaired(cutoff, steps, ops)
    decreases |steps|
  {
    if steps != [] {
      var s', rest := Next(s, steps[0]), steps[1..];
      RunRepairsAreDue(cutoff, s', rest);
      StepRepairsAreDue(cutoff, s, steps);
      FollowConcat(StepOps(cutoff, s, steps[0]), RunOps(cutoff, s', rest));
      RepairedConcat(cutoff, steps, StepOps(cutoff, s, steps[0]), RunOps(cutoff, s', rest));
    }
  }

  lemma StepRepairsAreDue(cutoff: nat, s: State, steps: seq<Move>)
    requires steps != [] && Enabled(s, steps[0]) && Deployed(cutoff, steps[0])
    ensures var ops := StepOps(cutoff, s, steps[0]); RepairsFollow(ops) && AllRepaired(cutoff, steps, ops)
  {
    var step, ops := steps[0], StepOps(cutoff, s, steps[0]);
    if Commits(step) {
      DrainRepairs(cutoff, step.cx, s.db.model, step.rows);
      forall i | 0 <= i < |ops| && ops[i].Orphan? ensures RepairedBySome(cutoff, steps, ops[i]) {
        assert RepairIsDue(cutoff, steps[0].cx, steps[0].rows, ops[i]);
      }
    }
  }

  lemma RepairedConcat(cutoff: nat, steps: seq<Move>, a: seq<Op>, b: seq<Op>)
    requires steps != [] && AllRepaired(cutoff, steps, a) && AllRepaired(cutoff, steps[1..], b)
    ensures AllRepaired(cutoff, steps, a + b)
  {
    forall i | 0 <= i < |a + b| && (a + b)[i].Orphan? ensures RepairedBySome(cutoff, steps, (a + b)[i]) {
      if i >= |a| {
        RepairedLater(cutoff, steps, b[i - |a|]);
      }
    }
  }

  lemma RepairedLater(cutoff: nat, steps: seq<Move>, op: Op)
    requires steps != [] && op.Orphan? && RepairedBySome(cutoff, steps[1..], op)
    ensures RepairedBySome(cutoff, steps, op)
  {
    var rest := steps[1..];
    var n :| 0 <= n < |rest| && Commits(rest[n]) && RepairIsDue(cutoff, rest[n].cx, rest[n].rows, op);
    assert steps[n + 1] == rest[n];
  }

  // ---------------------------------------------------------------- what a mark means

  /**
   A fetched row is processed by its batch exactly when it can be read and, at its turn, does not wait for an
   order or is overdue.
   */
  lemma FetchedIsProcessedIff(cutoff: nat, s: State, step: Move, i: nat)
    requires Commits(step) && Enabled(s, step) && Deployed(cutoff, step) && WellKeyed(s.db.raw) && i < |step.rows|
    ensures var row, raw := step.rows[i], Next(s, step).db.raw;
            var t := Play(s.db.model, DrainOps(cutoff, step.cx, s.db.model, step.rows[..i]));
            && row.msgId in raw
            && (raw[row.msgId].processed <==>
                  Legible(row) && (Waits(t, row.event.value) ==> Overdue(cutoff, step.cx, row)))
  {
    var h, cx, rows := step.h, step.cx, step.rows;
    AdvanceIsPerRow(s, step);
    PerRowIsCommit(h, cx, s.db, rows);
    assert Stored(s.db.raw, rows[i]) && Eligible(rows[i], s.phase.after, Some(s.phase.ceiling));
    MarkedIffConsumed(h, cx, s.db.model, rows, i);
    var before := DrainIsRun(cutoff, cx, s.db.model, rows[..i]);
    AttemptIsRun(cutoff, cx, Play(s.db.model, before), rows[i]);
  }

  /** A row the step has newly processed is one it delivered. */
  lemma NewlyProcessedIsDelivered(cutoff: nat, s: State, step: Move, k: MsgId)
    requires Enabled(s, step) && Deployed(cutoff, step) && WellKeyed(s.db.raw)
    requires k in Next(s, step).db.raw && Next(s, step).db.raw[k].processed
    requires k in s.db.raw ==> !s.db.raw[k].processed
    ensures k in s.db.raw && Legible(s.db.raw[k]) && Delivery(s.db.raw[k]) in StepOps(cutoff, s, step)
  {
    if step.Capture? {
      CapturedKeepsKeys(s.db.raw, step.edges, step.ingestedAt);
      CapturedIsUnprocessed(s.db.raw, step.edges, step.ingestedAt);
      assert false;
    }
    var rows := step.rows;
    AdvanceIsPerRow(s, step);
    PerRowIsCommit(step.h, step.cx, s.db, rows);
    MarksComeFromRows(step.h, step.cx, s.db.model, rows);
    var i :| 0 <= i < |rows| && rows[i].msgId == k;
    assert Stored(s.db.raw, rows[i]);
    FetchedIsProcessedIff(cutoff, s, step, i);
    LegibleIsDelivered(rows, i);
    DrainDelivers(cutoff, step.cx, s.db.model, rows);
    DeliveryIsAnOp(StepOps(cutoff, s, step), Delivery(rows[i]));
  }

  /** The run of operations in which the row's delivery stands between `before` and `after`. */
  ghost predicate DeliveredAt(ops: seq<Op>, row: Row, before: seq<Op>, after: seq<Op>) {
    Legible(row) && ops == before + [Delivery(row)] + after
  }

  /** Every row that a deployed run has processed was delivered by it, whatever its event. */
  lemma {:induction false} ProcessedIsDelivered(cutoff: nat, s: State, steps: seq<Move>, k: MsgId)
    returns (before: seq<Op>, after: seq<Op>)
    requires Runs(s, steps) && AllDeployed(cutoff, steps) && WellKeyed(s.db.raw)
    requires k in Run(s, steps).db.raw && Run(s, steps).db.raw[k].processed
    requires k in s.db.raw ==> !s.db.raw[k].processed
    ensures DeliveredAt(RunOps(cutoff, s, steps), Run(s, steps).db.raw[k], before, after)
    decreases |steps|
  {
    var s', rest := Next(s, steps[0]), steps[1..];
    var first, later := StepOps(cutoff, s, steps[0]), RunOps(cutoff, s', rest);
    StepKeepsRows(s, steps[0]);
    if k in s'.db.raw && s'.db.raw[k].processed {
      NewlyProcessedIsDelivered(cutoff, s, steps[0], k);
      RunKeepsRows(s', rest);
      before, after := SplitIn(first, Delivery(s.db.raw[k]), later);
    } else {
      var between;
      between, after := ProcessedIsDelivered(cutoff, s', rest, k);
      before := first + between;
      Regroup(first, between + [Delivery(Run(s', rest).db.raw[k])], after);
      Regroup(first, between, [Delivery(Run(s', rest).db.raw[k])]);
    }
  }

  lemma SplitIn(first: seq<Op>, op: Op, later: seq<Op>) returns (before: seq<Op>, after: seq<Op>)
    requires op in first
    ensures first + later == before + [op] + after
  {
    var i := Position(op, first);
    before, after := first[..i], first[i + 1..] + later;
  }

  /** What the delivered event means for the order `key`, which it met in `t`, right after it and at the end. */
  ghost predicate TookEffect(t: Book, row: Row, end: Book, key: I.OrderKey)
    requires Legible(row)
  {
    var p, t' := row.event.value.payload, Act(t, Delivery(row));
    && (p == I.OrderCancelled(key.id) && key in t.orders ==>
          key in end.orders && Over(end.orders[key]) && end.orders[key].remaining == t.orders[key].remaining)
    && (p == I.OrderExpired(key.id) && key in t.orders ==>
          && key in t'.orders && t'.orders[key].status != I.Open
          && !(t'.orders[key].status == I.Cancelled && t'.orders[key].swept))
    && (IsPlacement(p) && p.id == key.id ==>
          && key in end.orders && key in t'.orders
          && (key !in t.orders ==> ShowsPayload(t'.orders[key], p)))
  }

  lemma DeliveryTakesEffect(t: Book, row: Row, after: seq<Op>, key: I.OrderKey)
    requires Legible(row) && row.event.value.src == Some(key.book)
    ensures TookEffect(t, row, Play(Act(t, Delivery(row)), after), key)
  {
    var p, op := row.event.value.payload, Delivery(row);
    if p == I.OrderCancelled(key.id) && key in t.orders {
      CancelIsFinal(t, op, key, after);
    } else if p == I.OrderExpired(key.id) && key in t.orders {
      ExpiryShows(t, op, key);
    } else if IsPlacement(p) && p.id == key.id {
      PlacementShows(t, op, key);
      RowsStay(Act(t, op), after, key);
    }
  }

  /**
   What a processed row means for the order it names: a cancel that met it has ended it for good with what was
   left, an expiry that met it left it neither OPEN nor swept, and a placement has put it in the book.
   */
  lemma ProcessedTakesEffect(cutoff: nat, s: State, steps: seq<Move>, k: MsgId, key: I.OrderKey)
    returns (before: seq<Op>, after: seq<Op>)
    requires Runs(s, steps) && AllDeployed(cutoff, steps) && WellKeyed(s.db.raw)
    requires k in Run(s, steps).db.raw && Run(s, steps).db.raw[k].processed
    requires k in s.db.raw ==> !s.db.raw[k].processed
    requires var e := Run(s, steps).db.raw[k].event; e.Some? && e.value.src == Some(key.book)
    ensures var row := Run(s, steps).db.raw[k];
            && DeliveredAt(RunOps(cutoff, s, steps), row, before, after)
            && TookEffect(Play(s.db.model, before), row, Run(s, steps).db.model, key)
  {
    before, after := ProcessedIsDelivered(cutoff, s, steps, k);
    var row, t0 := Run(s, steps).db.raw[k], s.db.model;
    var ops := PipelineIsRun(cutoff, s, steps);
    PlayConcat(t0, before + [Delivery(row)], after);
    PlayConcat(t0, before, [Delivery(row)]);
    OneOp(Play(t0, before), Delivery(row));
    DeliveryTakesEffect(Play(t0, before), row, after, key);
  }
}
