/**
 The pipeline running the inference projector. Every state the pipeline reaches is reached by
 a run of the inference state machine, so the laws about such runs hold of the pipeline.
 */
module PipelineInference {
  import opened Prelude
  import opened PipelineModel
  import opened PipelineSteps
  import opened PipelineCoverage
  import opened InferenceRuns
  import opened InferenceColumns
  import InferenceDeals
  import InferenceErasure
  import InferenceOrphans
  import I = InferenceModel

  type Book = I.Tables
  type Row = RawRow<I.Event>

  function AsProjection(o: I.Outcome): Projection<Book> {
    match o
    case Applied(t) => Applied(t)
    case Deferred(t) => Deferred(t)
    case Unknown(t) => Unknown(t)
    case Failed => Failed
  }

  function ProjectRow(t: Book, row: Row): Projection<Book> {
    if row.event.None? then Failed else AsProjection(I.Project(t, row.event.value, row.chainOrder))
  }

  function RepairRow(t: Book, row: Row): Option<Book> {
    if row.event.None? then None else I.Repair(t, row.event.value, row.chainOrder)
  }

  function InferenceHandlers(cutoff: nat): Handlers<Book, I.Event> {
    Handlers(
      (t: Book, row: Row) => ProjectRow(t, row),
      (t: Book, row: Row) => RepairRow(t, row),
      (e: I.Event) => true,
      cutoff)
  }

  // ---------------------------------------------------------------- drains are runs

  /** The operation delivers or repairs the event of one of `rows`. */
  ghost predicate ComesFrom(op: Op, rows: seq<Row>) {
    !op.SweepIds? && exists i :: 0 <= i < |rows| && rows[i].event == Some(op.event) && rows[i].chainOrder == op.order
  }

  ghost predicate AllComeFrom(ops: seq<Op>, rows: seq<Row>) {
    forall i :: 0 <= i < |ops| ==> ComesFrom(ops[i], rows)
  }

  function After(v: Verdict<Book>, t: Book): Book {
    if v.Consumed? || v.Left? then v.model else t
  }

  lemma {:induction false} OneOp(t: Book, op: Op)
    ensures Play(t, [op]) == Act(t, op)
  {
  }

  /** Capture is at head and the row is older than the cutoff. */
  predicate Overdue(cutoff: nat, cx: Context, row: Row) {
    cx.captureAtHead && cx.now > row.ingestedAt + cutoff
  }

  function Delivery(row: Row): Op
    requires row.event.Some?
  {
    Deliver(row.event.value, row.chainOrder)
  }

  predicate Legible(row: Row) {
    row.event.Some? && Readable(row.event.value)
  }

  /** What attempting a row does: one delivery, and one repair if it is a dead letter. */
  function AttemptOps(cutoff: nat, cx: Context, t: Book, row: Row): seq<Op> {
    if !Legible(row) then []
    else if Waits(t, row.event.value) && Overdue(cutoff, cx, row) then
      [Delivery(row), Orphan(row.event.value, row.chainOrder)]
    else [Delivery(row)]
  }

  /** The projector's outcome, from the event and the orders present. */
  lemma OutcomeIs(t: Book, e: I.Event, order: ChainOrder)
    ensures var o := I.Project(t, e, order);
            && (o.Failed? <==> !Readable(e))
            && (o.Deferred? <==> Readable(e) && Waits(t, e))
            && (o.Unknown? <==> e.src.Some? && e.payload.Unrecognised?)
    ensures Readable(e) ==> I.Repair(t, e, order).Some?
  {
  }

  /**
   Attempting a row is delivering its event, followed by its repair if the row waits for an order and is
   overdue; it is consumed unless it waits and is not overdue, and errs exactly when it cannot be read.
   */
  lemma AttemptIsRun(cutoff: nat, cx: Context, t: Book, row: Row)
    ensures var v := Attempt(InferenceHandlers(cutoff), cx, t, row);
            && After(v, t) == Play(t, AttemptOps(cutoff, cx, t, row))
            && (v.Skipped? <==> row.event.None?)
            && (v.Errored? <==> row.event.Some? && !Readable(row.event.value))
            && (v.Consumed? <==> Legible(row) && (Waits(t, row.event.value) ==> Overdue(cutoff, cx, row)))
  {
    var h := InferenceHandlers(cutoff);
    assert h.project(t, row) == ProjectRow(t, row);
    if row.event.Some? {
      var e := row.event.value;
      OutcomeIs(t, e, row.chainOrder);
      if Readable(e) {
        var deliver, repair := Delivery(row), Orphan(e, row.chainOrder);
        OneOp(t, deliver);
        if Waits(t, e) {
          var t' := Act(t, deliver);
          DeferredVerdict(h, cx, t, row);
          assert h.repair(t', row) == RepairRow(t', row);
          OutcomeIs(t', e, row.chainOrder);
          OneOp(t', repair);
          PlayConcat(t, [deliver], [repair]);
          assert [deliver] + [repair] == [deliver, repair];
        } else {
          PromptVerdict(h, cx, t, row);
        }
      }
    }
  }

  /** What a drain does, row by row. */
  function DrainOps(cutoff: nat, cx: Context, t: Book, rows: seq<Row>): seq<Op>
    decreases |rows|
  {
    if rows == [] then []
    else
      var before := DrainOps(cutoff, cx, t, rows[..|rows| - 1]);
      before + AttemptOps(cutoff, cx, Play(t, before), rows[|rows| - 1])
  }

  /** A whole drain is the run of its deliveries and repairs. */
  lemma {:induction false} DrainIsRun(cutoff: nat, cx: Context, t: Book, rows: seq<Row>) returns (ops: seq<Op>)
    ensures ops == DrainOps(cutoff, cx, t, rows)
    ensures Savepointed(InferenceHandlers(cutoff), cx, Fresh(t), rows).model == Play(t, ops)
    ensures AllComeFrom(ops, rows)
    decreases |rows|
  {
    if rows == [] {
      ops := [];
    } else {
      var front, row := rows[..|rows| - 1], rows[|rows| - 1];
      var before := DrainIsRun(cutoff, cx, t, front);
      var last := AttemptOps(cutoff, cx, Play(t, before), row);
      AttemptIsRun(cutoff, cx, Play(t, before), row);
      PlayConcat(t, before, last);
      ops := before + last;
      forall i | 0 <= i < |ops| ensures ComesFrom(ops[i], rows) {
        if i < |before| {
          assert ComesFrom(before[i], front);
          var j :| 0 <= j < |front| && front[j].event == Some(ops[i].event) && front[j].chainOrder == ops[i].order;
          assert rows[j] == front[j];
        } else {
          assert rows[|rows| - 1].event == Some(ops[i].event) && rows[|rows| - 1].chainOrder == ops[i].order;
        }
      }
    }
  }

  // ---------------------------------------------------------------- soundness of every reachable state

  /** The steps of a deployment: this projector, and a background job that only sweeps. */
  ghost predicate Deployed(cutoff: nat, step: Step<Book, I.Event>) {
    && (Commits(step) ==> step.h == InferenceHandlers(cutoff))
    && (step.Elsewhere? ==> exists book, ids :: SweepsOnly(step.change, book, ids))
  }

  ghost predicate AllDeployed(cutoff: nat, steps: seq<Step<Book, I.Event>>) {
    forall i :: 0 <= i < |steps| ==> Deployed(cutoff, steps[i])
  }

  predicate PositiveEvent(e: Option<I.Event>) {
    e.Some? && IsPlacement(e.value.payload) ==> e.value.payload.ticks > 0
  }

  ghost predicate PositiveEvents(raw: RawEvents<I.Event>) {
    forall k :: k in raw ==> PositiveEvent(raw[k].event)
  }

  /** The chain only announces placements of positive size. */
  ghost predicate PositiveCapture(step: Step<Book, I.Event>) {
    step.Capture? ==> forall i :: 0 <= i < |step.edges| ==> PositiveEvent(step.edges[i].event)
  }

  ghost predicate AllPositiveCaptures(steps: seq<Step<Book, I.Event>>) {
    forall i :: 0 <= i < |steps| ==> PositiveCapture(steps[i])
  }

  lemma {:induction false} CaptureKeepsPositive(raw: RawEvents<I.Event>, edges: seq<Edge<I.Event>>, at: int)
    requires PositiveEvents(raw) && forall i :: 0 <= i < |edges| ==> PositiveEvent(edges[i].event)
    ensures PositiveEvents(Captured(raw, edges, at))
    decreases |edges|
  {
    if edges != [] {
      CaptureKeepsPositive(raw, edges[..|edges| - 1], at);
    }
  }

  ghost predicate AllPositive(ops: seq<Op>) {
    forall i :: 0 <= i < |ops| ==> PositiveSize(ops[i])
  }

  /** The read model is a run away from where the batch found it, over events of the stored rows only. */
  lemma BatchIsRun(cutoff: nat, cx: Context, db: Db<Book, I.Event>, rows: seq<Row>) returns (ops: seq<Op>)
    requires AllStored(db.raw, rows)
    ensures ops == DrainOps(cutoff, cx, db.model, rows)
    ensures PerRow(InferenceHandlers(cutoff), cx, db, rows).0.model == Play(db.model, ops)
    ensures AllComeFrom(ops, rows) && (PositiveEvents(db.raw) ==> AllPositive(ops))
  {
    SavepointedShift(InferenceHandlers(cutoff), cx, Start(db.model, rows), rows);
    ops := DrainIsRun(cutoff, cx, db.model, rows);
    if PositiveEvents(db.raw) {
      forall i | 0 <= i < |ops| ensures PositiveSize(ops[i]) {
        assert ComesFrom(ops[i], rows);
        var j :| 0 <= j < |rows| && rows[j].event == Some(ops[i].event) && rows[j].chainOrder == ops[i].order;
        assert Stored(db.raw, rows[j]);
      }
    }
  }

  ghost predicate SweepsOnly(change: Book -> Book, book: I.Address, ids: set<nat>) {
    forall t: Book :: change(t) == Act(t, SweepIds(book, ids))
  }

  /** What a step of the deployed system does to the read model. */
  ghost function StepOps(cutoff: nat, s: Sys<Book, I.Event>, step: Step<Book, I.Event>): seq<Op>
    requires Deployed(cutoff, step)
  {
    if step.Elsewhere? then
      var book, ids :| SweepsOnly(step.change, book, ids);
      [SweepIds(book, ids)]
    else if Commits(step) then DrainOps(cutoff, step.cx, s.db.model, step.rows)
    else []
  }

  /** Every step of the deployed system is, for the read model, the run of its operations. */
  lemma StepIsRun(cutoff: nat, s: Sys<Book, I.Event>, step: Step<Book, I.Event>) returns (ops: seq<Op>)
    requires Enabled(s, step) && Deployed(cutoff, step)
    ensures ops == StepOps(cutoff, s, step)
    ensures Next(s, step).db.model == Play(s.db.model, ops)
    ensures PositiveEvents(s.db.raw) ==> AllPositive(ops)
    ensures if Commits(step) then AllComeFrom(ops, step.rows) else forall i :: 0 <= i < |ops| ==> ops[i].SweepIds?
  {
    ops := StepOps(cutoff, s, step);
    if step.Elsewhere? {
      assert ops == [ops[0]];
      OneOp(s.db.model, ops[0]);
    } else if Commits(step) {
      AdvanceIsPerRow(s, step);
      ops := BatchIsRun(cutoff, step.cx, s.db, step.rows);
    }
  }

  lemma StepKeepsPositive(s: Sys<Book, I.Event>, step: Step<Book, I.Event>)
    requires Enabled(s, step) && PositiveEvents(s.db.raw) && PositiveCapture(step)
    ensures PositiveEvents(Next(s, step).db.raw)
  {
    if step.Capture? {
      CaptureKeepsPositive(s.db.raw, step.edges, step.ingestedAt);
    } else if Commits(step) {
      AdvanceIsPerRow(s, step);
    }
  }

  /** The operations of a run: those of its steps, in commit order. */
  ghost function RunOps(cutoff: nat, s: Sys<Book, I.Event>, steps: seq<Step<Book, I.Event>>): seq<Op>
    requires Runs(s, steps) && AllDeployed(cutoff, steps)
    decreases |steps|
  {
    if steps == [] then []
    else StepOps(cutoff, s, steps[0]) + RunOps(cutoff, Next(s, steps[0]), steps[1..])
  }

  /**
   For the read model, every run of the deployed system is the run of its operations, of positive size if the
   chain's are.
   */
  lemma {:induction false} PipelineIsRun(cutoff: nat, s: Sys<Book, I.Event>, steps: seq<Step<Book, I.Event>>)
    returns (ops: seq<Op>)
    requires Runs(s, steps) && AllDeployed(cutoff, steps)
    ensures ops == RunOps(cutoff, s, steps)
    ensures Run(s, steps).db.model == Play(s.db.model, ops)
    ensures PositiveEvents(s.db.raw) && AllPositiveCaptures(steps) ==> AllPositive(ops)
    decreases |steps|
  {
    if steps == [] {
      ops := [];
    } else {
      var first := StepIsRun(cutoff, s, steps[0]);
      var rest := PipelineIsRun(cutoff, Next(s, steps[0]), steps[1..]);
      PlayConcat(s.db.model, first, rest);
      ops := first + rest;
      if PositiveEvents(s.db.raw) && AllPositiveCaptures(steps) {
        StepKeepsPositive(s, steps[0]);
      }
    }
  }

  /**
   In every state the deployed pipeline reaches from an empty order table: 0 <= remaining <=
   initial, an OPEN row is resting, a FILLED bid is used up, swept means cancelled.
   */
  lemma EveryReachableBookIsSound(
    cutoff: nat, t: Book, steps: seq<Step<Book, I.Event>>, k: I.OrderKey)
    requires t.orders == map[] && Runs(Boot(t), steps)
    requires AllDeployed(cutoff, steps) && AllPositiveCaptures(steps)
    requires k in Run(Boot(t), steps).db.model.orders
    ensures var o := Run(Boot(t), steps).db.model.orders[k];
            && o.remaining <= o.initial
            && (o.status == I.Open ==> o.remaining > 0)
            && (o.status == I.Filled && o.isBuy ==> o.remaining == 0)
            && (o.swept ==> o.status == I.Cancelled)
  {
    var ops := PipelineIsRun(cutoff, Boot(t), steps);
    ReachableRowsAreSound(t, ops, k);
  }

  /**
   A row FILLED or cancelled by an event keeps its status and remainder through every continuation of
   the pipeline.
   */
  lemma TerminalRowsSurviveThePipeline(
    cutoff: nat, s: Sys<Book, I.Event>, steps: seq<Step<Book, I.Event>>, k: I.OrderKey)
    requires Runs(s, steps) && AllDeployed(cutoff, steps)
    requires k in s.db.model.orders && I.Terminal(s.db.model.orders[k])
    ensures k in Run(s, steps).db.model.orders
    ensures var o, o' := s.db.model.orders[k], Run(s, steps).db.model.orders[k];
            && o'.status == o.status && o'.remaining == o.remaining
            && (o.status == I.Filled ==> o' == o)
  {
    var ops := PipelineIsRun(cutoff, s, steps);
    TerminalRowsAbsorb(s.db.model, ops, k);
  }

  // ---------------------------------------------------------------- deferred fills get applied

  /** A well-formed fill row whose two legs are in the read model. */
  predicate ReadyFill(t: Book, row: Row) {
    && row.event.Some? && row.event.value.src.Some? && row.event.value.payload.OrderFilled?
    && I.BothLegs(t, row.event.value.src.value, row.event.value.payload.fill)
  }

  lemma ReadyFillIsConsumed(cutoff: nat, cx: Context, t: Book, row: Row)
    requires ReadyFill(t, row)
    ensures Attempt(InferenceHandlers(cutoff), cx, t, row) == Consumed(Act(t, Delivery(row)), false)
  {
    assert InferenceHandlers(cutoff).project(t, row) == ProjectRow(t, row);
  }

  /** No operation of another row with the same key. */
  ghost predicate OtherKeys(ops: seq<Op>, order: ChainOrder) {
    forall i :: 0 <= i < |ops| ==> ops[i].SweepIds? || ops[i].order != order
  }

  /**
   `t` comes from `t0` by a run in which the row's fill was delivered with both its legs present, after
   operations of other keys only.
   */
  ghost predicate Delivered(t0: Book, t: Book, row: Row, before: seq<Op>, after: seq<Op>)
    requires row.event.Some?
  {
    && ReadyFill(Play(t0, before), row) && OtherKeys(before, row.chainOrder)
    && t == Play(Act(Play(t0, before), Delivery(row)), after)
  }

  ghost predicate WasDelivered(t0: Book, t: Book, row: Row)
    requires row.event.Some?
  {
    exists before, after :: Delivered(t0, t, row, before, after)
  }

  lemma {:induction false} TapeKeysComeFromOps(t: Book, ops: seq<Op>, order: ChainOrder)
    requires OtherKeys(ops, order) && order !in t.trades
    ensures order !in Play(t, ops).trades
    decreases |ops|
  {
    if ops != [] {
      OneTapeKey(t, ops[0], order);
      TapeKeysComeFromOps(Act(t, ops[0]), ops[1..], order);
    }
  }

  lemma OneTapeKey(t: Book, op: Op, order: ChainOrder)
    requires (op.SweepIds? || op.order != order) && order !in t.trades
    ensures order !in Act(t, op).trades
  {
    if !op.SweepIds? {
      if op.event.src.Some? && op.event.payload.OrderFilled? {
        InferenceOrphans.FillTape(t, op);
      } else {
        InferenceErasure.NonFillParts(t, op);
      }
    }
  }

  lemma FillIsTaped(t: Book, row: Row)
    requires ReadyFill(t, row)
    ensures var e, f := row.event.value, row.event.value.payload.fill;
            var tape := Act(t, Delivery(row)).trades;
            && row.chainOrder in tape
            && (row.chainOrder !in t.trades ==>
                  tape[row.chainOrder] == I.Trade(e.src.value, f.clearingPrice, f.ticks,
                                                  t.orders[I.OrderKey(e.src.value, f.makerId)].isBuy, e.time))
  {
    InferenceOrphans.FillTape(t, Delivery(row));
  }

  /**
   What a delivered fill shows at the end: its key is on the tape, and if it was new there, the tape row has
   the fill's book, clearing price and quantity, and the side of the maker it met.
   */
  lemma DeliveredShows(t0: Book, t: Book, row: Row, before: seq<Op>, after: seq<Op>)
    requires row.event.Some? && Delivered(t0, t, row, before, after)
    ensures row.chainOrder in t.trades
    ensures row.chainOrder !in t0.trades ==>
              var e, f, r := row.event.value, row.event.value.payload.fill, t.trades[row.chainOrder];
              && r.book == e.src.value && r.price == f.clearingPrice && r.qty == f.ticks
              && r.isBuyerMaker == Play(t0, before).orders[I.OrderKey(e.src.value, f.makerId)].isBuy
              && (e.time.Some? ==> r.chainTime == e.time)
  {
    var t1 := Play(t0, before);
    FillIsTaped(t1, row);
    InferenceDeals.TapeIsImmutable(Act(t1, Delivery(row)), after, row.chainOrder);
    if row.chainOrder !in t0.trades {
      TapeKeysComeFromOps(t0, before, row.chainOrder);
    }
  }

  /** Each leg took the fill: a bid that was open is down by the ticks, or filled, the moment it was delivered. */
  lemma DeliveredFills(t: Book, row: Row, k: I.OrderKey)
    requires ReadyFill(t, row) && k in I.Legs(row.event.value.src.value, row.event.value.payload.fill)
    ensures k in t.orders && k in Act(t, Delivery(row)).orders
    ensures var f, at := row.event.value.payload.fill, I.Stamp(row.chainOrder, row.event.value.time);
            TakesFill(t.orders[k], f.ticks, at, Act(t, Delivery(row)).orders[k])
  {
    FillShows(t, Delivery(row), k);
  }

  /** A ready row in the middle of a drain is marked, and delivered with both legs, whatever the rows around it do. */
  lemma DrainAppliesReadyFill(cutoff: nat, cx: Context, t: Book, a: seq<Row>, row: Row, b: seq<Row>)
    returns (before: seq<Op>, after: seq<Op>)
    requires ReadyFill(t, row)
    ensures var p := Savepointed(InferenceHandlers(cutoff), cx, Fresh(t), a + [row] + b);
            && row.msgId in p.toMark
            && p.model == Play(Act(Play(t, before), Delivery(row)), after)
    ensures ReadyFill(Play(t, before), row) && AllComeFrom(before, a)
  {
    var h := InferenceHandlers(cutoff);
    var e := row.event.value;
    SavepointedConcat(h, cx, Fresh(t), a + [row], b);
    SavepointedConcat(h, cx, Fresh(t), a, [row]);
    var q := Savepointed(h, cx, Fresh(t), a);
    before := DrainIsRun(cutoff, cx, t, a);
    InferenceOrphans.EnabledFillStaysEnabled(t, before, e.src.value, e.payload.fill);
    ReadyFillIsConsumed(cutoff, cx, q.model, row);
    var r := SavepointStep(h, cx, q, row);
    assert [row][..0] == [];
    assert Savepointed(h, cx, q, [row]) == r;
    SavepointedShift(h, cx, r, b);
    after := DrainIsRun(cutoff, cx, r.model, b);
  }

  /** A pending fill in the range of the current pass, both legs placed, its key shared with no other pending row. */
  ghost predicate Waiting(s: Sys<Book, I.Event>, row: Row) {
    && WellKeyed(s.db.raw) && Stored(s.db.raw, row) && Pending(row) && ReadyFill(s.db.model, row)
    && KeyIsOwn(s.db.raw, row)
    && s.phase.Draining? && Above(row.chainOrder, s.phase.after) && row.chainOrder <= s.phase.ceiling
  }

  ghost predicate KeyIsOwn(raw: RawEvents<I.Event>, row: Row) {
    forall k :: k in raw && k != row.msgId && Pending(raw[k]) ==> raw[k].chainOrder != row.chainOrder
  }

  ghost predicate Processed(raw: RawEvents<I.Event>, row: Row) {
    WellKeyed(raw) && row.msgId in raw && raw[row.msgId].processed
  }

  lemma ProcessedIsForGood(s: Sys<Book, I.Event>, step: Step<Book, I.Event>, row: Row)
    requires Processed(s.db.raw, row) && Enabled(s, step)
    ensures Processed(Next(s, step).db.raw, row)
  {
    if step.Capture? {
      CapturedKeepsKeys(s.db.raw, step.edges, step.ingestedAt);
    } else if Commits(step) {
      AdvanceIsPerRow(s, step);
    }
  }

  lemma {:induction false} ProcessedThroughout(s: Sys<Book, I.Event>, steps: seq<Step<Book, I.Event>>, row: Row)
    requires Processed(s.db.raw, row) && Runs(s, steps)
    ensures Processed(Run(s, steps).db.raw, row)
    decreases |steps|
  {
    if steps != [] {
      ProcessedIsForGood(s, steps[0], row);
      ProcessedThroughout(Next(s, steps[0]), steps[1..], row);
    }
  }

  lemma ReadyStaysReady(cutoff: nat, s: Sys<Book, I.Event>, step: Step<Book, I.Event>, row: Row)
    requires ReadyFill(s.db.model, row) && Enabled(s, step) && Deployed(cutoff, step)
    ensures ReadyFill(Next(s, step).db.model, row)
  {
    var ops := StepIsRun(cutoff, s, step);
    InferenceOrphans.EnabledFillStaysEnabled(s.db.model, ops, row.event.value.src.value, row.event.value.payload.fill);
  }

  /** Other fetched rows have other keys. */
  lemma OthersHaveOtherKeys(s: Sys<Book, I.Event>, rows: seq<Row>, row: Row, ops: seq<Op>)
    requires Waiting(s, row) && AllComeFrom(ops, rows)
    requires forall i :: 0 <= i < |rows| ==> Stored(s.db.raw, rows[i]) && Pending(rows[i]) && rows[i].msgId != row.msgId
    ensures OtherKeys(ops, row.chainOrder)
  {
    forall i | 0 <= i < |ops| ensures ops[i].SweepIds? || ops[i].order != row.chainOrder {
      assert ComesFrom(ops[i], rows);
      var j :| 0 <= j < |rows| && rows[j].event == Some(ops[i].event) && rows[j].chainOrder == ops[i].order;
      assert Stored(s.db.raw, rows[j]);
    }
  }

  /** A batch that fetches the row delivers it. */
  lemma FetchedFillIsDelivered(cutoff: nat, s: Sys<Book, I.Event>, step: Step<Book, I.Event>, row: Row)
    returns (before: seq<Op>, after: seq<Op>)
    requires Waiting(s, row) && Commits(step) && Enabled(s, step) && Deployed(cutoff, step) && row in step.rows
    ensures Processed(Next(s, step).db.raw, row)
    ensures Delivered(s.db.model, Next(s, step).db.model, row, before, after)
  {
    var i;
    i, before, after := FetchedFillIsMarked(cutoff, step.cx, s.db.model, step.rows, row);
    assert OtherKeys(before, row.chainOrder) by {
      EarlierRowsDiffer(s, step.size, step.rows, row, i);
      OthersHaveOtherKeys(s, step.rows[..i], row, before);
    }
    AdvanceIsPerRow(s, step);
    PerRowIsCommit(step.h, step.cx, s.db, step.rows);
  }

  lemma FetchedFillIsMarked(cutoff: nat, cx: Context, t: Book, rows: seq<Row>, row: Row)
    returns (i: nat, before: seq<Op>, after: seq<Op>)
    requires ReadyFill(t, row) && row in rows
    ensures i < |rows| && rows[i] == row && AllComeFrom(before, rows[..i]) && ReadyFill(Play(t, before), row)
    ensures var p := Savepointed(InferenceHandlers(cutoff), cx, Fresh(t), rows);
            row.msgId in p.toMark && p.model == Play(Act(Play(t, before), Delivery(row)), after)
  {
    i := Position(row, rows);
    assert rows == rows[..i] + [row] + rows[i + 1..];
    before, after := DrainAppliesReadyFill(cutoff, cx, t, rows[..i], row, rows[i + 1..]);
  }

  lemma EarlierRowsDiffer(s: Sys<Book, I.Event>, size: nat, rows: seq<Row>, row: Row, i: nat)
    requires Fetches(s, size, rows) && i < |rows| && rows[i] == row
    ensures forall j :: 0 <= j < i ==>
              && Stored(s.db.raw, rows[..i][j]) && Pending(rows[..i][j]) && rows[..i][j].msgId != row.msgId
  {
    forall j | 0 <= j < i
      ensures Stored(s.db.raw, rows[..i][j]) && Pending(rows[..i][j]) && rows[..i][j].msgId != row.msgId
    {
      assert Stored(s.db.raw, rows[j]) && Eligible(rows[j], s.phase.after, Some(s.phase.ceiling));
    }
  }

  /** A batch that does not fetch the row is full and ends below it. */
  lemma MissedFillIsAhead<E>(
    raw: RawEvents<E>, after: Option<ChainOrder>, until: Option<ChainOrder>, size: nat, rows: seq<RawRow<E>>,
    row: RawRow<E>)
    requires IsBatch(raw, after, until, size, rows) && size > 0
    requires Stored(raw, row) && Eligible(row, after, until) && row !in rows
    requires forall k :: k in raw && k != row.msgId && Pending(raw[k]) ==> raw[k].chainOrder != row.chainOrder
    ensures |rows| == size && rows[size - 1].chainOrder < row.chainOrder
  {
    assert raw[row.msgId] == row;
    assert |rows| == size;
    var last := rows[size - 1];
    assert Stored(raw, rows[size - 1]) && Eligible(rows[size - 1], after, until);
    assert last.chainOrder <= row.chainOrder;
  }

  lemma UnfetchedFillWaits(cutoff: nat, s: Sys<Book, I.Event>, step: Step<Book, I.Event>, row: Row)
    requires Waiting(s, row) && Commits(step) && step.acked && Enabled(s, step) && Deployed(cutoff, step)
    requires row !in step.rows
    ensures Waiting(Next(s, step), row)
  {
    var rows := step.rows;
    MissedFillIsAhead(s.db.raw, s.phase.after, Some(s.phase.ceiling), step.size, rows, row);
    ReadyStaysReady(cutoff, s, step, row);
    AdvanceIsPerRow(s, step);
    PerRowIsCommit(step.h, step.cx, s.db, rows);
    MarksComeFromRows(step.h, step.cx, s.db.model, rows);
    assert row.msgId !in Savepointed(step.h, step.cx, Fresh(s.db.model), rows).toMark by {
      forall i | 0 <= i < |rows| ensures rows[i].msgId != row.msgId {
        assert Stored(s.db.raw, rows[i]);
      }
    }
  }

  lemma OthersLetWait(cutoff: nat, s: Sys<Book, I.Event>, step: Step<Book, I.Event>, row: Row)
    requires Waiting(s, row) && InPass(step) && !Commits(step)
    requires Enabled(s, step) && CapturesPast(s, step) && Deployed(cutoff, step)
    ensures Waiting(Next(s, step), row)
  {
    ReadyStaysReady(cutoff, s, step, row);
    if step.Capture? {
      CapturedKeepsKeys(s.db.raw, step.edges, step.ingestedAt);
    }
  }

  /** A step that does not deliver the row performs operations of other keys only. */
  lemma WaitingStep(cutoff: nat, s: Sys<Book, I.Event>, step: Step<Book, I.Event>, row: Row) returns (ops: seq<Op>)
    requires Waiting(s, row) && InPass(step) && Enabled(s, step) && CapturesPast(s, step) && Deployed(cutoff, step)
    requires Commits(step) ==> row !in step.rows
    ensures Waiting(Next(s, step), row)
    ensures Next(s, step).db.model == Play(s.db.model, ops) && OtherKeys(ops, row.chainOrder)
  {
    ops := StepIsRun(cutoff, s, step);
    if Commits(step) {
      UnfetchedFillWaits(cutoff, s, step, row);
      forall j | 0 <= j < |step.rows|
        ensures Stored(s.db.raw, step.rows[j]) && Pending(step.rows[j]) && step.rows[j].msgId != row.msgId
      {
        assert Eligible(step.rows[j], s.phase.after, Some(s.phase.ceiling));
      }
      OthersHaveOtherKeys(s, step.rows, row, ops);
    } else {
      OthersLetWait(cutoff, s, step, row);
    }
  }

  lemma DeliveredLater(t0: Book, ops: seq<Op>, t: Book, row: Row)
    requires row.event.Some? && OtherKeys(ops, row.chainOrder) && WasDelivered(Play(t0, ops), t, row)
    ensures WasDelivered(t0, t, row)
  {
    var before, after :| Delivered(Play(t0, ops), t, row, before, after);
    PlayConcat(t0, ops, before);
    assert Delivered(t0, t, row, ops + before, after);
  }

  lemma DeliveredBefore(t0: Book, t: Book, row: Row, before: seq<Op>, after: seq<Op>, ops: seq<Op>)
    requires row.event.Some? && Delivered(t0, t, row, before, after)
    ensures WasDelivered(t0, Play(t, ops), row)
  {
    PlayConcat(Act(Play(t0, before), Delivery(row)), after, ops);
    assert Delivered(t0, Play(t, ops), row, before, after + ops);
  }

  /** Through every interleaving a waiting fill is still waiting, or has been delivered and marked. */
  lemma {:induction false} FillWaitsOrIsDone(
    cutoff: nat, s: Sys<Book, I.Event>, steps: seq<Step<Book, I.Event>>, row: Row)
    requires PassRun(s, steps) && AllDeployed(cutoff, steps) && Waiting(s, row)
    ensures || Waiting(Run(s, steps), row)
            || (Processed(Run(s, steps).db.raw, row) && WasDelivered(s.db.model, Run(s, steps).db.model, row))
    decreases |steps|
  {
    if steps != [] {
      var step, s', rest := steps[0], Next(s, steps[0]), steps[1..];
      if Commits(step) && row in step.rows {
        var before, after := FetchedFillIsDelivered(cutoff, s, step, row);
        var ops := PipelineIsRun(cutoff, s', rest);
        ProcessedThroughout(s', rest, row);
        DeliveredBefore(s.db.model, s'.db.model, row, before, after, ops);
      } else {
        var ops := WaitingStep(cutoff, s, step, row);
        FillWaitsOrIsDone(cutoff, s', rest, row);
        if WasDelivered(s'.db.model, Run(s', rest).db.model, row) {
          DeliveredLater(s.db.model, ops, Run(s', rest).db.model, row);
        }
      }
    }
  }

  /**
   Inside a pass, a pending fill of its range whose legs are both placed has, once the pass has ended
   cleanly, been delivered to a read model with both legs and marked, whatever is captured, published,
   swept, failed and replayed meanwhile; and the tape shows it.
   */
  lemma PassAppliesReadyFill(cutoff: nat, s: Sys<Book, I.Event>, steps: seq<Step<Book, I.Event>>, row: Row)
    requires Waiting(s, row) && PassRun(s, steps) && AllDeployed(cutoff, steps)
    requires Run(s, steps).phase.Idle?
    ensures Processed(Run(s, steps).db.raw, row)
    ensures WasDelivered(s.db.model, Run(s, steps).db.model, row)
    ensures var f, tape := row.event.value.payload.fill, Run(s, steps).db.model.trades;
            && row.chainOrder in tape
            && (row.chainOrder !in s.db.model.trades ==>
                  && tape[row.chainOrder].book == row.event.value.src.value
                  && tape[row.chainOrder].price == f.clearingPrice && tape[row.chainOrder].qty == f.ticks)
  {
    FillWaitsOrIsDone(cutoff, s, steps, row);
    var t0, t := s.db.model, Run(s, steps).db.model;
    var before, after :| Delivered(t0, t, row, before, after);
    DeliveredShows(t0, t, row, before, after);
  }

  /** The next retry pass that ends cleanly applies every pending ready fill inside the barrier. */
  lemma NextRetryPassAppliesReadyFill(
    cutoff: nat, s: Sys<Book, I.Event>, ceiling: Option<ChainOrder>, steps: seq<Step<Book, I.Event>>, row: Row)
    requires WellKeyed(s.db.raw) && Stored(s.db.raw, row) && Pending(row) && ReadyFill(s.db.model, row)
    requires KeyIsOwn(s.db.raw, row)
    requires Barrier(s.db.cursors).Some? && row.chainOrder <= Barrier(s.db.cursors).value
    requires Enabled(s, Begin(true, ceiling)) && PassRun(Next(s, Begin(true, ceiling)), steps)
    requires AllDeployed(cutoff, steps) && Run(Next(s, Begin(true, ceiling)), steps).phase.Idle?
    ensures var s' := Run(Next(s, Begin(true, ceiling)), steps);
            Processed(s'.db.raw, row) && WasDelivered(s.db.model, s'.db.model, row)
  {
    assert s.db.raw[row.msgId] == row;
    PassAppliesReadyFill(cutoff, Next(s, Begin(true, ceiling)), steps, row);
  }
}
